# Jungey OS kernel models

Jungey OS is a small AArch64 kernel. This project models the parts of it that keep invariants across functions, cores and
power cycles, and proves what they keep: for every run, every interleaving and every cut, not for examples.

| file | what it models |
|---|---|
| `Scheduler.dfy`, `Wakeup.dfy` | the SMP scheduler, its context hand-over and fairness; blocking and waking across channels and the tensor device |
| `Tensor.dfy` | the tensor device: picking, admission control, a bound on completion |
| `Jlfs.dfy`, `JlfsLog.dfy`, `JlfsVolume.dfy`, `Intents.dfy` | the log-structured filesystem, its crash consistency, and undo of intents |
| `Ota.dfy` | A/B updates over boots, installs, confirmations and power cuts |
| `Heap.dfy`, `Paging.dfy`, `UserCopy.dfy`, `Frames.dfy` | the coalescing heap, the page tables, user copies, the frame allocator |
| `KvCache.dfy` | the key/value cache over memory and flash |
| `BlockClient.dfy` | tagged requests to the block driver, with timeouts and late replies |
| `Audit.dfy`, `Sha256.dfy`, `Sha256Example.dfy`, `Capability.dfy` | the hash-chained action log, SHA-256 with one published digest worked out, the capability ledger and revocation |
| `Drawing.dfy`, `Compositor.dfy`, `Framebuffer.dfy` | rectangles and drawing commands, windows and damage, the clipped drawing loops |
| `Bytes.dfy`, `Arithmetic.dfy`, `Wrappers.dfy` | byte layouts, division and failure values shared by the others |

Each subsystem has a value-level description (datatypes, functions, a step relation) about which the theorems are stated,
and, where the source works in place, a class whose methods have the source's loops and are proved to take exactly those
steps. `dafny verify dfyconfig.toml` checks everything. Every invariant is met where its runs start: `Scheduler.BootInv`,
`Tensor.IdleInv`, `JlfsLog.FormatIsGood`, `Ota.FormattedInv`, `Heap.FreshInv`, `Paging.FreshHolds`, `Frames.InitIsSound`,
`KvCache.InitHolds`, `BlockClient.StartInv`, `Capability.EmptyInv`; the runs of `Wakeup`, `Audit` and `Compositor` start at
boot, on a zeroed region and on an empty desk.

Assumptions: a sector write is atomic (`kernel/src/fs.rs:29-31`); disk input and output succeeds or the power is cut, except
in the cache, where any transfer may fail; each section under one lock is one step; `frames`, `kv` and `audit` calls are
taken one at a time, since their functions read shared state and write it back later. Integers are unbounded except where a
width matters (fields on disk and on the wire, tags, checksums, hashes, addresses modulo 2^48). Time, the device's segment
durations, transfer failures and the font are parameters; the frame allocator is a sequence of frames to come in the page
tables and a stack in the cache. Page tables and the memory that user copies reach are kept apart, which
`Paging.TablesStayHidden` justifies. A word of rights is the set of its bits.

Where the code and what it says of itself part ways, the model follows the code and a lemma shows the case, with the exact
condition under which the promise holds: a deadline can be admitted that an in-flight segment makes unreachable
(`Tensor.AdmissionCanMiss`, `Tensor.AdmissionExact`); a job of no segments never ends (`Tensor.EndsIffWork`); undo stops short
when others have filled the directory meanwhile (`Intents.FullDirectoryStops`, `Intents.UndoRestores`); a file name with a NUL byte is
never found again, and data of 4 GiB or more is cut (`JlfsLog.WriteEffect`, `Intents.NulNameEscapesUndo`); an unaligned heap
donation overruns its region (`Heap.DonationContained`); first fit passes over a block with room (`Heap.PassesOverRoom`,
`Heap.AllocSucceeds`), and with it what was just released, when alignment exceeds 8 (`Heap.ReleasedIsNotEnough`); a
search for contiguous frames can lose frames even when it fails (`Frames.LosesExactly`, `Frames.FailedRunLoses`), and a
region that starts at address zero is counted but never served (`Frames.FrameAllocator.Claim`); a kernel pointer does
translate in a user space, as its low 48 bits do (`Paging.HighBitsIgnored`, against `kernel/src/mm/uaccess.rs:3-6`); tags
come round after 2^32 requests (`BlockClient.TagComesRound`); a copy of a capability kept out of the tables survives
revocation (`Capability.StaysCutOff`); a window that draws outside itself leaves stale pixels (`Compositor.StaleIff`,
`Compositor.OutsideIsStale`); an install over the active slot does not survive a cut (`Ota.StageOverActive`); tampering that
hits what recovery looks at can shorten the log instead of being reported (`Audit.TamperAfterRestart`).

## Model

| member | source | states |
|---|---|---|
| Scheduler.PickIsNearest | kernel/src/sched/mod.rs:278-296 | The scan takes the eligible thread nearest after the cursor, if there is any. |
| Scheduler.PickIs | kernel/src/sched/mod.rs:278-296 | If some thread can run here and is free, the choice is the nearest such after the cursor; if none, the current thread when it can run and is not the idle one, else the idle thread. |
| Scheduler.IdlesIff | kernel/src/sched/mod.rs:278-296 | A core at work goes idle if and only if its thread cannot run and no other can be taken. |
| Scheduler.DecideIs | kernel/src/sched/mod.rs:299-354 | A decision changes nothing when it keeps the thread; otherwise it claims the chosen thread, counts its slice, moves the cursor there, puts the old one aside for release, and touches nothing else. |
| Scheduler.RouseIs | kernel/src/sched/mod.rs:417-440 | A sweep makes runnable exactly the sleepers whose time has come. |
| Scheduler.StepInv | kernel/src/sched/mod.rs:265-365 | Claim, context save, load, release, block, wake, spawn and exit, as separate steps of any cores, keep the ownership invariant. |
| Scheduler.EveryRunIsSafe | kernel/src/sched/mod.rs:299-365 | In every run from boot no thread is held by two cores, an unclaimed thread has a complete context, and only complete contexts are loaded. |
| Scheduler.BypassCloses | kernel/src/sched/mod.rs:278-296 | Each time a waiting thread is passed over, the circular distance from the cursor to it falls by exactly the length of the cursor's jump. |
| Scheduler.ChosenInTime | kernel/src/sched/mod.rs:278-330 | A thread that stays eligible for a core is chosen within that core's next n - 1 decisions. |
| Scheduler.Kernel.Pick | kernel/src/sched/mod.rs:278-296 | The scan loop computes the choice above. |
| Scheduler.Kernel.Schedule | kernel/src/sched/mod.rs:299-354 | The locked section takes exactly the claiming step. |
| Scheduler.Kernel.WakeAllOn | kernel/src/sched/mod.rs:510-526 | The loop makes ready exactly the threads blocked on the token. |
| Scheduler.Kernel.WakeDue | kernel/src/sched/mod.rs:417-440 | One pass wakes exactly the sleepers that are due and reports the next one. |
| Wakeup.StepInv | kernel/src/ipc.rs:35-68 | Every step of senders, receivers, submitters, worker and waiters keeps "what is ready and waited for has a wake pending". |
| Wakeup.NoLostWakeup | kernel/src/sched/mod.rs:478-526 | In every interleaving, a thread blocked on something already there has another thread about to wake its token, itself runnable or marked as sleeping to a time that has come. |
| Wakeup.WakeReaches | kernel/src/sched/mod.rs:510-526 | After that wake no thread at all is blocked on the token; those that were are runnable and still in `block`, to look again; all others are unchanged. |
| Wakeup.MailIsConserved | kernel/src/ipc.rs:35-79 | In every run, the messages sent on a channel are, in order, those received and then those queued: none lost, invented or reordered; the two counters differ by the queue's length. |
| Wakeup.Channels.Create | kernel/src/ipc.rs:29-33 | A new, empty channel; the others as they were. |
| Wakeup.Channels.Enqueue | kernel/src/ipc.rs:35-56 | Appends to one queue, or fails for an unknown channel and changes nothing. |
| Wakeup.Channels.TryReceive | kernel/src/ipc.rs:70-79 | Takes the oldest message of one queue. |
| Tensor.PickIsBest | kernel/src/tensor.rs:390-412 | The picked job beats every earlier one strictly by class, then deadline, and no later one beats it. |
| Tensor.PickNone | kernel/src/tensor.rs:390-412 | Nothing is picked only when no job is pickable. |
| Tensor.PickedIs | kernel/src/tensor.rs:390-412 | What is picked has work left; nothing with work left is of a more urgent class, nothing of its class has an earlier deadline, and among equals it came first. |
| Tensor.StepInv | kernel/src/tensor.rs:446-538 | Submissions and both of the worker's locked sections keep the device's invariant. |
| Tensor.DoneInTime | kernel/src/tensor.rs:446-538 | A waiting job comes to an end, and without an energy cap of its own to completion, by the time the device has run its own and the in-the-way segments, plus one in flight; exactly then when no job in its way has a cap. |
| Tensor.AdmittedWaits | kernel/src/tensor.rs:305-325 | What admission counts ahead bounds what is in the admitted job's way. |
| Tensor.CountedIsInTheWay | kernel/src/tensor.rs:305-325 | Counted ahead is exactly the work in the way, where no counted job has to wait for the new one. |
| Tensor.OnlyLiveJobsCount | kernel/src/tensor.rs:305-325 | Jobs that are over, and jobs of lower classes, count for nothing. |
| Tensor.SubmitIs | kernel/src/tensor.rs:268-355 | Which offers are refused, for heat or for the deadline, with which figures, and the one job each adds. |
| Tensor.CoolingIs | kernel/src/tensor.rs:216-229 | The temperature falls by 120 thousandths for each whole millisecond since the last look that counted, and never below zero. |
| Tensor.LookingDoesNotCool | kernel/src/tensor.rs:216-229 | Looking more often never makes the device cooler than looking once. |
| Tensor.BeginIs | kernel/src/tensor.rs:446-480 | Job by job, what the first locked section changes: the picked one runs, and the one before it is charged a preemption if it was not finished. |
| Tensor.EndIs | kernel/src/tensor.rs:492-529 | Job by job, what the second changes: progress, device time and energy; done exactly when no segment is left, over budget exactly when some are and the cap is reached. |
| Tensor.AdmissionHolds | kernel/src/tensor.rs:305-355 | From admission to the end the device is busy no longer than the window, plus one segment if a lower class had the device. |
| Tensor.AdmissionExact | kernel/src/tensor.rs:305-325 | With no caps in the way and segments that cost what was reckoned, an admitted deadline is met if and only if its own segments, those in its way and the one in flight fit the window; always so when no lower class has the device. |
| Tensor.AdmissionCanMiss | kernel/src/tensor.rs:305-325 | That extra segment is real: a run in which an admitted deadline slips by one segment. |
| Tensor.EmptyJobNeverEnds | kernel/src/tensor.rs:390-412 | A job of no segments is never picked and never ends, in every run. |
| Tensor.EmptyIsAdmitted | kernel/src/tensor.rs:268-355 | An offer of no segments and no deadline is admitted whenever there is thermal headroom. |
| Tensor.EndsIffWork | kernel/src/tensor.rs:446-538 | Once the device has run the counted segments, an admitted job has ended, as done or over budget, if and only if it had a segment to run. |
| Tensor.Accelerator.SubmitJob | kernel/src/tensor.rs:268-355 | The submission's whole effect on jobs and counters, refusals included. |
| Tensor.Accelerator.PickJob | kernel/src/tensor.rs:390-412 | The loop computes the pick. |
| Tensor.Accelerator.BeginSegment | kernel/src/tensor.rs:446-480 | The worker's first locked section. |
| Tensor.Accelerator.EndSegment | kernel/src/tensor.rs:492-529 | The worker's second locked section: progress, energy, completion, preemption. |
| Jlfs.CheckpointRoundTrip | kernel/src/fs.rs:160-217 | Every checkpoint that fits decodes from its encoding, checksum and all. |
| Jlfs.SuperblockReadBack | kernel/src/fs.rs:220-256 | The layout `format` writes is the layout `mount` reads. |
| JlfsLog.MountGood | kernel/src/fs.rs:258-301 | Mounting a good disk gives back the filesystem that was in memory: the newer valid slot wins. |
| JlfsLog.PlanShape | kernel/src/fs.rs:353-466 | All of an operation's writes but its last fall beyond the head of the log and inside the limit; the last is the other checkpoint slot. |
| JlfsLog.DataStaysClear | kernel/src/fs.rs:307-315 | Every write before the commit lies beyond the head of the log, inside the disk and below every region set aside. |
| JlfsLog.WriteSucceeds | kernel/src/fs.rs:353-431 | A write is taken if and only if the name is short enough, its sectors end clear of every region, and the name is present or there is room; and which error it gives otherwise. |
| JlfsLog.RegionsFit | kernel/src/fs.rs:220-256 | The regions of a formatted disk follow one another to its end, each of its promised size. |
| JlfsLog.RegionsAreKept | kernel/src/fs.rs:307-466 | No sequence of operations and cuts on a formatted disk changes a sector of the reserved regions. |
| JlfsLog.CutIsAtomic | kernel/src/fs.rs:353-466 | Wherever power goes during an operation, the disk mounts as the filesystem before it or after it, every file included. |
| JlfsLog.WriteEffect | kernel/src/fs.rs:353-431 | A written file reads back as its data if and only if its name has no NUL and the data is shorter than 4 GiB; other files are unchanged. |
| JlfsLog.SetEffect | kernel/src/fs.rs:433-466 | Setting an entry makes its name read as the entry says, or go, if and only if the entry goes under its own name, or no other entry has the name; otherwise no other name changes. |
| JlfsLog.FormatIsGood | kernel/src/fs.rs:220-256 | A formatted disk satisfies the invariant. |
| JlfsLog.EveryHistoryIsConsistent | kernel/src/fs.rs:258-466 | After any sequence of operations and cuts on a formatted disk, mount succeeds, and a cut operation leaves every file as before or as after it. |
| JlfsVolume.Filesystem.ReadRoot | kernel/src/fs.rs:258-301 | `mount`'s choice between the two slots, with its error cases. |
| JlfsVolume.Filesystem.Read | kernel/src/fs.rs:325-351 | The sector loop returns the file's bytes, cut to the buffer. |
| JlfsVolume.Filesystem.WriteFile | kernel/src/fs.rs:353-431 | The loops issue exactly the planned sector writes, in order. |
| JlfsVolume.Filesystem.SetFileEntry | kernel/src/fs.rs:433-466 | The same for changing an entry. |
| JlfsVolume.Filesystem.Limit | kernel/src/fs.rs:307-315 | The end of the log's room. |
| JlfsVolume.Filesystem.Usage | kernel/src/fs.rs:477-488 | Used sectors, and those no file points at. |
| Intents.ReverseStep | kernel/src/fs.rs:433-475 | Putting a recorded entry back fails exactly when the directory would be over full, and says so; otherwise the intent's names are as before the step and all others as they were. |
| Intents.UndoRestores | kernel/src/intent.rs:159-215 | With others changing other files in between, undo gives every file of the intent the existence and bytes it had at `begin` and leaves every other as it is now; it succeeds if and only if the other files there are now and the intent's of each of its states fit the directory together, and otherwise stops at the first put-back for which they do not. |
| Intents.UndoAlone | kernel/src/intent.rs:159-215 | With nobody else at work undo never fails, and every file is as it was at `begin`. |
| Intents.FullDirectoryStops | kernel/src/intent.rs:183-215 | From every full directory: the intent removes a file, somebody else creates one, and undo stops with the directory full and the file gone. |
| Intents.NulNameEscapesUndo | kernel/src/intent.rs:183-215 | A name with a NUL is recorded as absent, and undoing a write under it does nothing; that leaves a file behind exactly when the part before the NUL named none. |
| Intents.IntentLog.Begin | kernel/src/intent.rs:139-157 | A new open intent with the next number. |
| Intents.IntentLog.Record | kernel/src/intent.rs:159-169 | Appends a step to that intent only. |
| Intents.IntentLog.Commit | kernel/src/intent.rs:171-181 | Closes that intent only. |
| Intents.IntentLog.Undo | kernel/src/intent.rs:183-215 | Which intents can be undone, the error cases, and the walk's effect. |
| Intents.IntentLog.UndoAt | kernel/src/intent.rs:195-215 | The reversed loop puts entries back in reverse order and counts reversed and irreversible steps. |
| Ota.ControlRoundTrip | kernel/src/ota.rs:119-152 | What is written to the control sector is what the next boot reads. |
| Ota.StepInv | kernel/src/ota.rs:197-346 | Boots, installs, confirmations, initialisation and power cuts keep the invariant. |
| Ota.AlwaysBootable | kernel/src/ota.rs:262-314 | In every run with cuts at any write, some slot is Successful with an image matching its digest, and no boot reports corruption. |
| Ota.ProbationEnds | kernel/src/ota.rs:262-314 | In every run in which the slot is neither confirmed nor staged again, with power lost at any write: it runs at most as often as it had tries, each boot that recorded its try having spent exactly one; a boot that finishes with the tries spent goes back; and from the first block gone back on, every boot runs the other slot. |
| Ota.TrialBoot | kernel/src/ota.rs:262-311 | One boot on probation, cut anywhere or not: what it reports, and that the block is the old one or the one with the try spent, or the return, recorded. |
| Ota.NeverRunAgain | kernel/src/ota.rs:269-281 | Once the block has gone back, every later boot runs the slot that proved itself. |
| Ota.StageStartsProbation | kernel/src/ota.rs:197-229 | A fresh install is on probation with all its tries. |
| Ota.StagedBoots | kernel/src/ota.rs:197-229 | The next boot tries what was installed, of that version and health, with one try spent. |
| Ota.ConfirmDoes | kernel/src/ota.rs:316-329 | On disk and in memory the running slot is Successful with no tries left over, the other is no longer one to go back to, and versions, digests and images are as they were. |
| Ota.ConfirmationLasts | kernel/src/ota.rs:316-329 | In every run, from a confirmation until the next finished install, every boot reports the confirmed slot and version as booted. |
| Ota.InitialiseDoes | kernel/src/ota.rs:331-346 | A first start leaves version 1 proven in slot 0, the other empty. |
| Ota.CorruptIff | kernel/src/ota.rs:262-314 | A boot reports corruption if and only if the slot's magic, digest or version is not what the block says, and then writes nothing unless it had to grant a try. |
| Ota.KeepsTrying | kernel/src/ota.rs:282-296 | Out of tries with no slot to go back to, a boot grants itself one more and spends it, recording both before the slot runs. |
| Ota.StageOverActive | kernel/src/main.rs:2379-2399 | Why installs go to the other slot: one over the active slot, cut after its first sector, leaves a corrupt slot. |
| Ota.Updater.LoadSlot | kernel/src/ota.rs:231-260 | Reads the slot back and measures it. |
| Ota.Updater.StageSlot | kernel/src/ota.rs:197-229 | Issues exactly the install's writes. |
| Ota.Updater.MarkSuccessful | kernel/src/ota.rs:316-329 | Confirms the active slot and discards the other. |
| Ota.Updater.BootDevice | kernel/src/ota.rs:262-314 | Records the decision before acting on it, in every branch. |
| Heap.InsertListed | kernel/src/mm/heap.rs:62-89 | Insertion with merging keeps the list sorted, aligned, with no two blocks touching, and adds the block's bytes. |
| Heap.InsertApart | kernel/src/mm/heap.rs:62-89 | What becomes free is exactly what was free and the block. |
| Heap.CarveListed | kernel/src/mm/heap.rs:91-132 | Splitting a block keeps the list, and loses no byte but those handed out and a short tail. |
| Heap.StepInv | kernel/src/mm/heap.rs:91-138 | Allocation and release keep the invariant. |
| Heap.EveryRunIsSound | kernel/src/mm/heap.rs:62-138 | After any valid sequence: list sorted and merged, live and free blocks disjoint, and free + allocated + 8 per dropped tail is the total. |
| Heap.AllocGives | kernel/src/mm/heap.rs:91-132 | An allocation is aligned, large enough and disjoint from all else; it fails exactly when no block fits at its first aligned address. |
| Heap.AllocSucceeds | kernel/src/mm/heap.rs:91-132 | An allocation succeeds if and only if in some free block, from the least aligned address on, the rounded size fits and what is left in front is nothing or a block; it is taken from the first such block, at that address. |
| Heap.ExactFitSucceeds | kernel/src/mm/heap.rs:91-132 | A free block of exactly the rounded size at an aligned address is always enough. |
| Heap.MadeAgain | kernel/src/mm/heap.rs:91-138 | With alignment up to 8, memory just released can be had again. |
| Heap.ReleasedIsNotEnough | kernel/src/mm/heap.rs:91-138 | With alignment 16 it may not: a case where the released block grows into the one in front. |
| Heap.PassesOverRoom | kernel/src/mm/heap.rs:91-132 | First fit refuses a request for which aligned room exists inside a block. |
| Heap.DonationContained | kernel/src/mm/heap.rs:48-60 | A donated block lies inside its region if and only if the region's start was aligned. |
| Heap.FreeList.InsertBlock | kernel/src/mm/heap.rs:62-89 | The pointer loop threads the list through memory as the insertion says. |
| Heap.FreeList.Allocate | kernel/src/mm/heap.rs:91-132 | The first-fit loop, unlinking and putting back both remainders. |
| Heap.FreeList.Release | kernel/src/mm/heap.rs:134-139 | Release is an insertion and a smaller allocated count. |
| Heap.FreeList.CheckList | kernel/src/mm/heap.rs:186-227 | On a list that keeps the invariant no structural test fires, save that more than a million blocks count as a cycle; its totals are the list's. |
| Paging.LeafGrants | kernel/src/mm/paging.rs:50-65 | Every page descriptor is valid, user-accessible, never runnable by the kernel, never writable and runnable at once, and holds its page's address. |
| Paging.DescriptorIs | kernel/src/mm/paging.rs:50-65 | Every field of a page descriptor, from the permission and the address: runnable by the user exactly for text, read-only exactly for text and read-only data, memory type and shareability zero exactly for devices, accessed, not global, never run by the kernel, and nothing else set. |
| Paging.TranslateIsLookup | kernel/src/mm/paging.rs:176-190 | The four-level walk is a lookup in the flat map of pages. |
| Paging.EntryForKeeps | kernel/src/mm/paging.rs:112-124 | Walking and hanging tables changes no page's descriptor, and fails only when frames have run out. |
| Paging.MapPageHolds | kernel/src/mm/paging.rs:127-139 | Mapping one page changes that page's translation and no other. |
| Paging.MapFromHolds | kernel/src/mm/paging.rs:127-139 | Mapping a range is the flat map's range, or its first part when frames run out. |
| Paging.MapGives | kernel/src/mm/paging.rs:127-139 | After a successful map every address of the range translates to its place; its page is runnable exactly for text, and writable exactly for data and devices. |
| Paging.UnmapHolds | kernel/src/mm/paging.rs:155-173 | Unmapping a range removes those pages and no other. |
| Paging.AnonymousIsFresh | kernel/src/mm/paging.rs:142-150 | Anonymous pages are different frames, new to the space, none of them a table then or later. |
| Paging.AnonymousStops | kernel/src/mm/paging.rs:142-150 | All pages are mapped, or the address is unaligned and none is, or the allocator has run dry. |
| Paging.EveryRunIsFlat | kernel/src/mm/paging.rs:112-190 | After any calls, failed ones included, every address translates as the flat map says, keyed by the address modulo 2^48, and no frame is owned twice. |
| Paging.FreshHolds | kernel/src/mm/paging.rs:89-96 | A new space is one zeroed table and the empty flat map. |
| Paging.HighBitsIgnored | kernel/src/mm/paging.rs:67-69 | Bits above the 48 decoded are ignored: a kernel pointer translates as its low part. |
| Paging.TablesStayHidden | kernel/src/mm/paging.rs:127-150 | While callers map only pages of their own, in every run from a new space no address translates to a page table of the space or to a frame the allocator still has. |
| Paging.AddressSpace.FindEntry | kernel/src/mm/paging.rs:112-124 | The growing walk's loop. |
| Paging.AddressSpace.MapRange | kernel/src/mm/paging.rs:127-139 | The mapping loop, with both errors and the partial effect of the second. |
| Paging.AddressSpace.MapFreshPages | kernel/src/mm/paging.rs:142-150 | The anonymous loop. |
| Paging.AddressSpace.UnmapRange | kernel/src/mm/paging.rs:155-173 | The unmapping loops. |
| Paging.AddressSpace.TranslateAddress | kernel/src/mm/paging.rs:176-190 | The loop's answer is the flat map's. |
| UserCopy.PageMoves | kernel/src/mm/uaccess.rs:21-29 | Within a page, translation moves along with the address. |
| UserCopy.CopyFromUser | kernel/src/mm/uaccess.rs:15-31 | The chunked copy in is bytewise access through the map; it fails exactly on length or an unmapped byte. |
| UserCopy.PhysicalMemory.CopyToUser | kernel/src/mm/uaccess.rs:33-45 | The chunked copy out is bytewise storing up to the first unmapped byte. |
| UserCopy.ReadsBackIff | kernel/src/mm/uaccess.rs:15-45 | What was copied out reads back if and only if no two different bytes went to one physical place. |
| UserCopy.UnsharedIsUntouched | kernel/src/mm/uaccess.rs:33-45 | Memory the range does not translate to is unchanged, in this space or another. |
| Frames.SkipIsReserved | kernel/src/mm/frames.rs:36-42 | A step over a reserved range passes only reserved frames. |
| Frames.UsableIs | kernel/src/mm/frames.rs:36-91 | A page is usable if and only if it shares no byte with any range passed in, rounding notwithstanding. |
| Frames.SkipCounts | kernel/src/mm/frames.rs:170-185 | The skipping count is the number of usable frames, page by page. |
| Frames.AllocGives | kernel/src/mm/frames.rs:94-118 | Refused exactly when nothing is free; otherwise a usable frame nobody has, and the free count falls by one. |
| Frames.ReleaseKeeps | kernel/src/mm/frames.rs:155-162 | A returned frame joins the acyclic list, and the free count rises by one. |
| Frames.RunGives | kernel/src/mm/frames.rs:126-152 | A contiguous run is usable throughout and nobody has any of it. |
| Frames.LosesExactly | kernel/src/mm/frames.rs:126-152 | A search for a run costs its frames and exactly the usable frames it skipped, whether it succeeds or not. |
| Frames.FailedRunLoses | kernel/src/mm/frames.rs:126-152 | A case: a refused run leaves two usable frames lost. |
| Frames.EveryRunIsSound | kernel/src/mm/frames.rs:94-162 | Over every run with callers writing their own frames, the free list is acyclic with its stored length, and what is out is usable, unreserved and not free. |
| Frames.InitIsSound | kernel/src/mm/frames.rs:48-91 | The allocator starts sound, with nothing out and nothing listed. |
| Frames.FrameAllocator.BlockedUntil | kernel/src/mm/frames.rs:36-42 | The scan for the first overlapping range. |
| Frames.FrameAllocator.Claim | kernel/src/mm/frames.rs:48-91 | Rounds the reserved ranges, sets the region and counts it; a region from address zero is counted and never served. |
| Frames.FrameAllocator.AllocFrame | kernel/src/mm/frames.rs:94-118 | The loop, which ends. |
| Frames.FrameAllocator.AllocContiguous | kernel/src/mm/frames.rs:126-152 | The nested loops, which end. |
| Frames.FrameAllocator.FreeFrame | kernel/src/mm/frames.rs:155-162 | Links the frame in front of the list. |
| Frames.FrameAllocator.FreeFrames | kernel/src/mm/frames.rs:170-185 | The counting loop returns the free count. |
| KvCache.VictimIsWorst | kernel/src/kv.rs:208-220 | The scan finds the first block of the highest score, whenever any block is resident. |
| KvCache.VictimIsOldest | kernel/src/kv.rs:165-220 | What goes is the oldest of its kind; between a prefix block and a later one, ages divided by eight and 1000 ticks decide. |
| KvCache.PrefixGoesLast | kernel/src/kv.rs:165-174 | A prefix block goes while a later one is resident only when eight times as old, and 8000 ticks more. |
| KvCache.FramesDistinct | kernel/src/kv.rs:254-281 | No frame holds two resident blocks. |
| KvCache.MakeRoomKeeps | kernel/src/kv.rs:200-251 | Eviction keeps all contents; it stops short of the budget only when the spill region is full or a write failed. |
| KvCache.EvictsOnlyAsNeeded | kernel/src/kv.rs:200-251 | Nothing is evicted when there is room, and no more than makes room. |
| KvCache.AppendKeeps | kernel/src/kv.rs:254-281 | Appends add filled blocks to one session; a success is within budget; each error's cause is real. |
| KvCache.ReadKeeps | kernel/src/kv.rs:287-355 | A read returns the plain map's contents, resident or spilled, and fails exactly as listed. |
| KvCache.ReadRefreshes | kernel/src/kv.rs:287-355 | A block read is resident afterwards, and used as of that read. |
| KvCache.StepInv | kernel/src/kv.rs:141-355 | One call, whatever it moves between memory and flash, looks like the same call on the plain map. |
| KvCache.CacheRefinesMap | kernel/src/kv.rs:200-355 | Over every run, under any clock and transfer failures: every reply is the plain map's, frames are conserved, spill ranges stay disjoint inside the region, and the counter is true. |
| KvCache.InitHolds | kernel/src/kv.rs:118-122 | The cache starts with the empty plain map and every frame free. |
| KvCache.Store.OpenSession | kernel/src/kv.rs:141-158 | A new empty session with the next number. |
| KvCache.Store.FindVictim | kernel/src/kv.rs:208-220 | The nested scan. |
| KvCache.Store.WriteFrame | kernel/src/kv.rs:177-193 | The sector loop, which stops at a failed transfer. |
| KvCache.Store.MakeSpace | kernel/src/kv.rs:200-251 | The eviction loop. |
| KvCache.Store.AppendBlocks | kernel/src/kv.rs:254-281 | The append loop, every error path included. |
| KvCache.Store.ReadBlock | kernel/src/kv.rs:287-355 | The hit and the restore. |
| BlockClient.ServeUnderstands | user/src/blkdrv.rs:320-373 | The driver reads every request off the wire as it was meant and echoes its tag. |
| BlockClient.StepInv | kernel/src/blk.rs:66-150 | Every step of any number of clients and the driver, timeouts and late replies included, keeps the protocol's invariant. |
| BlockClient.ReadReflectsLastWrite | kernel/src/blk.rs:170-181 | In every run with at most 2^32 requests a successful read is the driver's answer to that very read: what the last write sent before it left in the sector. |
| BlockClient.WriteIsDone | kernel/src/blk.rs:183-192 | A write reported as done was taken by the device. |
| BlockClient.StaleIsAbandoned | kernel/src/blk.rs:102-146 | A reply dropped as stale answers a request nobody waits for; who waits still has its request or its reply queued. |
| BlockClient.PollIs | kernel/src/blk.rs:102-146 | A poll takes the oldest reply: if it answers the caller's own request the call returns, with an error exactly when the driver met one; if not, it is counted as stale and nobody's state changes. |
| BlockClient.TagComesRound | kernel/src/blk.rs:148-150 | The bound is exact: one request more, and a reader of sector 1 is handed sector 0. |
| BlockClient.Client.NextTag | kernel/src/blk.rs:148-150 | Tags count modulo 2^32. |
| BlockClient.Client.AwaitReply | kernel/src/blk.rs:102-146 | The polling loop: the first reply with the tag decides, the ones before it are counted and dropped. |
| Audit.ByteSeparates | kernel/src/audit.rs:73-80 | Changing any one byte of a record's body changes its hash: xor, then multiplication by an odd number modulo 2^64, is injective. |
| Audit.RecordReads | kernel/src/audit.rs:134-146 | A record reads back as what happened, cut to its fields, and links to the hash before it. |
| Audit.AppendKeeps | kernel/src/audit.rs:122-161 | An append extends the chain and leaves every earlier record unchanged, byte for byte; it fails exactly when the log is full. |
| Audit.InitRecovers | kernel/src/audit.rs:84-110 | A restart finds the log's length and last hash. |
| Audit.EveryRunVerifies | kernel/src/audit.rs:84-200 | After any appends and restarts on a zeroed region, the walk finds no bad record and counts them all. |
| Audit.TamperLocated | kernel/src/audit.rs:170-200 | Any one byte of record i changed: the walk reports exactly i and vouches for the i records before it. |
| Audit.TamperAfterRestart | kernel/src/audit.rs:84-110 | After a restart it is still reported if and only if it missed the magic and did not lower the last record's number; otherwise the log comes back shorter and clean. |
| Audit.HashRecord | kernel/src/audit.rs:73-80 | The hash loop. |
| Audit.ActionLog.FindEnd | kernel/src/audit.rs:84-110 | The nested scan for the end of the log. |
| Audit.ActionLog.AppendEvent | kernel/src/audit.rs:122-161 | The read-modify-write of one record's slot. |
| Audit.ActionLog.VerifyChain | kernel/src/audit.rs:170-200 | The walk's loop, one sector read for four records. |
| Sha256.StreamingIsOneShot | kernel/src/sha256.rs:48-135 | However a message is cut into pieces, repeated update then finish is the digest of the whole. |
| Sha256.DigestIsFips | kernel/src/sha256.rs:63-135 | For messages shorter than 2^64 bits that is the padding and block iteration of sections 5.1.1 and 6.2.2 of FIPS 180-4. |
| Sha256Example.DigestOfAbc | kernel/src/sha256.rs:48-135 | The digest of "abc" is the one published with the standard. |
| Sha256.Hasher.Compress | kernel/src/sha256.rs:85-128 | Schedule and rounds equal the standard's block function. |
| Sha256.Hasher.Feed | kernel/src/sha256.rs:48-61 | The buffering loop absorbs the data. |
| Sha256.Hasher.Close | kernel/src/sha256.rs:63-83 | Padding and output. |
| Drawing.UnionCovers | user/src/wm.rs:52-64 | The union of two boxes covers both. |
| Drawing.UnionLeast | user/src/wm.rs:52-64 | And is the smallest box that does. |
| Drawing.ClampExact | user/src/wm.rs:66-75 | Clamping keeps exactly the pixels on the screen. |
| Drawing.ReplayRoundTrip | user/src/gpudrv.rs:495-544 | Replaying the retained bytes draws the commands that were sent, in order. |
| Drawing.LitIs | user/src/gpudrv.rs:434-451 | Lower case is drawn as upper case, and what has no glyph draws nothing. |
| Compositor.OrderSorts | user/src/wm.rs:238-255 | The painting order is every used window, lowest first. |
| Compositor.ShadeIs | user/src/wm.rs:289-295 | A title bar's colour is a third of the way to white in each channel, and opaque. |
| Compositor.PlacedIs | user/src/wm.rs:268-281 | A command draws as far from the corner below the title bar as it says, and nothing above or left of it. |
| Compositor.CreateIs | user/src/wm.rs:160-181 | A new window lies on top of all others with what was asked of it, cut to the screen and to the title's room; a taken name or a full table changes nothing. |
| Compositor.ChangeIs | user/src/wm.rs:185-219 | What raise, move, push and reset each do to that window; and that an unknown window is only counted. |
| Compositor.BackgroundIs | user/src/gpudrv.rs:495-505 | A background command shows its colour where it draws and no window does, is kept only while there is room, and changes nothing elsewhere. |
| Compositor.FullIsShown | user/src/wm.rs:238-285 | Painting everything in order shows, at each pixel, the highest window that draws there, else the background. |
| Compositor.StepInv | user/src/wm.rs:144-219 | Every window and background operation keeps: pixels outside the damage are as they ought to be. |
| Compositor.ComposeExact | user/src/gpudrv.rs:562-574 | A redraw repaints the damaged part of the screen and nothing else. |
| Compositor.PartialIsFull | user/src/gpudrv.rs:562-574 | In every run whose windows draw inside themselves, after a clear: redrawing only the damage leaves every pixel as a full repaint would. |
| Compositor.StaysCleared | user/src/gpudrv.rs:614-643 | A background, once cleared, stays so under every operation. |
| Compositor.StaleIff | user/src/wm.rs:185-200 | Without that proviso: after a change and a redraw a pixel is right if and only if it lies in the box of the window's two rectangles or the change made no difference there. |
| Compositor.OutsideIsStale | user/src/wm.rs:217-219 | A case: a window that filled a square outside itself, and was reset, leaves it on the screen. |
| Compositor.TapGoesToWhatIsSeen | user/src/wm.rs:222-235 | A tap goes to the window seen at that point. |
| Compositor.OthersAreUntouched | user/src/wm.rs:154-200 | An operation changes no window of another owner. |
| Framebuffer.Screen.FillRect | user/src/gpudrv.rs:418-430 | The clipped fill loops. |
| Framebuffer.Screen.PaintGlyph | user/src/gpudrv.rs:434-451 | The four nested loops light exactly the glyph's dots inside the clip. |
| Framebuffer.Screen.PaintText | user/src/gpudrv.rs:453-457 | The text loop. |
| Framebuffer.Screen.RootPaint | user/src/gpudrv.rs:508-544 | The replay loop draws the retained background into the clip. |
| Framebuffer.SortWindows | user/src/wm.rs:239-255 | The insertion sort by swaps yields the painting order. |
| Framebuffer.Server.Retained | user/src/gpudrv.rs:495-505 | What is retained, and what is marked, for each background command. |
| Framebuffer.Server.CreateWindow | user/src/wm.rs:160-181 | Creation, and when it is refused. |
| Framebuffer.Server.ChangeWindow | user/src/wm.rs:185-219 | Raise, move, push and reset, marking both rectangles. |
| Framebuffer.Server.HitTest | user/src/wm.rs:222-235 | The scan, with the point relative to the window. |
| Framebuffer.Server.PaintAll | user/src/wm.rs:238-285 | Windows are painted in order into the clip. |
| Framebuffer.Server.ComposeDamage | user/src/gpudrv.rs:562-574 | Every pixel of the framebuffer ends as the redraw says; on a desk that kept the invariant and was cleared that is a full repaint, at every pixel, over anything. |
| Capability.DescendsIsAncestry | kernel/src/cap.rs:200-213 | The climb answers exactly whether a line of descent exists. |
| Capability.DescendsDown | kernel/src/cap.rs:87-91 | Descent goes to older capabilities only, so the ledger has no cycle. |
| Capability.RightsShrink | kernel/src/cap.rs:139-149 | No capability has a right any ancestor lacks. |
| Capability.RootIs | kernel/src/cap.rs:117-127 | What minting makes: a live capability with the rights asked for, derived from none. |
| Capability.DeriveIs | kernel/src/cap.rs:139-149 | What deriving makes: the same object, the rights asked for that the parent has, dead if the parent is, recorded under the parent. |
| Capability.InstalledIsFound | kernel/src/proc.rs:108-124 | What is installed is what a lookup finds, at that place and no other; and when it is refused. |
| Capability.ChainIsAncestry | kernel/src/cap.rs:98-109 | With room enough the chain names all ancestors and nothing else. |
| Capability.ChainIsLine | kernel/src/cap.rs:98-109 | However small the buffer, it holds the nearest part of the chain, each with its record. |
| Capability.StepInv | kernel/src/cap.rs:87-149 | Minting, deriving, installing, copying and revoking keep the ledger a forest with shrinking rights, and every capability true to it. |
| Capability.RevokeMarks | kernel/src/proc.rs:131-161 | A revocation marks exactly the installed descendants and changes nothing else. |
| Capability.RevocationLasts | kernel/src/proc.rs:131-161 | With no working copy outside the tables, nothing installed works on that authority again, in every later run. |
| Capability.StaysCutOff | kernel/src/proc.rs:131-161 | And only then: revocation lasts through all later runs if and only if kernel code holds no working copy. |
| Capability.CapSystem.ChainOf | kernel/src/cap.rs:98-109 | The climbing loop. |
| Capability.CapSystem.IsDescendant | kernel/src/cap.rs:200-213 | The climbing loop decides ancestry. |
| Capability.CapSystem.DeriveFor | kernel/src/cap.rs:139-149 | Rights are intersected and a dead capability begets a dead one. |
| Capability.CapSystem.InstallCap | kernel/src/proc.rs:108-115 | One slot of one process, with both errors. |
| Capability.CapSystem.RevokeAll | kernel/src/proc.rs:131-161 | The nested loops mark the subtree, return its exact number, and name exactly the channels affected. |

## Left out

- Boot assembly, interrupt controller, timer and serial registers, exception vectors, cache and translation buffer
  maintenance: hardware access with no logic to state.
- Device queue mechanics in the user-space drivers: the block driver is a serial server that reads a request, acts and
  replies; a device that completes a request after the driver has given it up is not modelled.
- Concurrent callers inside `frames`, `kv` and `audit`: the code does not hold one lock across the read and the write back,
  so nothing is claimed. The transient `Spilling` state of a cache block is invisible to serialised calls and has no value
  here.
- `kernel/src/model.rs`, `elf.rs`, `dtb.rs`, the demonstrations in `main.rs`, the shell and the applications.
- Power cuts during `format`, and collision resistance of CRC-32, FNV and SHA-256: the code promises neither. A damaged
  checkpoint is told from an intact one by its checksum as computed, not by its odds.
- The audit log over a region with stale records after its end: a zeroed region is required, as `format` clears only the
  first sector.
- Wakeups by revocation reach receivers already blocked; the check before blocking is not under the channel lock, and
  nothing is claimed for a receiver between the two.
- Which device-tree region the frame allocator claims: base and size are parameters of `Claim`.
- KvCache.ReadKeeps: a restored block may exceed the budget when the spill region is full or a write failed; the contract
  says so, because the code restores even if nothing could be evicted.
- Compositor.PartialIsFull: that windows draw inside themselves is a hypothesis, as the compositor does not clip windows;
  `StaleIff` is the statement without it. A move near the edge shrinks the rectangle for good, so a window can lose the
  property by being moved there and back.
- Capability.CapSystem.RevokeAll: returns the affected channels; waking their receivers is the scheduler's step.
- Paging.AddressSpace.MapRange: the flush of the translation buffer is not modelled, nor is the address space identifier.
- Tap delivery to clients, the decoding of window messages, and the transfer of the redrawn box to the display.
- Counters kept for reports (hits, spills, composites, taps), labels and hexadecimal printing: no invariant hangs on them.
- JlfsVolume.Filesystem.SetFileEntry: the entry must name a finished part of the log. The code takes any entry; its callers pass
  back entries they were given, and one from elsewhere would make a file of whatever lies there.
- Intents.UndoRestores: changes are under names without NUL bytes, by anyone; `NulNameEscapesUndo` is about the others. Others
  do not change the intent's own names, for which no promise is made.

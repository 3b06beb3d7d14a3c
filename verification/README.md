# A Dafny model of QEMU's core algorithms

This project models seven parts of QEMU 2.12 and proves what they are for. Each part is an algorithm whose fast or
buffered form has to agree with a simple meaning, or a protocol that has to keep an invariant over every run.

- **Memory dispatch** (`PhysPageMap`, `Dispatch`): the multi-level page map, its compaction, the subpage table and the
  MRU cache. For every flat view that fits the section table and every byte of the address space, the lookup gives the
  section that owns the byte, with the right offset, before and after compaction.
- **RAM blocks and dirty memory** (`RamList`, `DirtyMemory`): best-fit placement, the sorted list, the MRU lookup, and
  a chunked bitmap that acts as one flat bitmap.
- **Exclusive sections** (`Exclusive`): a transition system with one step per atomic access, any number of threads, any
  interleaving and spurious wake-ups. Mutual exclusion, exact counting, no lost wake-ups and no deadlock hold in every
  state of every run.
- **Guest memory dumps** (`GuestMemory`, `ElfDump`, `DumpFile`, `GuestPages`, `KdumpBitmap`, `KdumpPages`, `Kdump`): a
  reader of the kdump file, counting bits of either bitmap and following descriptors, gets guest memory back; the ELF
  program header offsets point at the bytes that the separate writer loop wrote.
- **Block jobs** (`BlockJob`, `BlockJobTxn`): the status table, pause counting, cancellation and group commit or abort.
  For every list of events the assertions on the status table hold; commit and abort are all-or-nothing exactly when
  no prepare hook fails or the first to fail is that of the finalizing job.
- **Block graph permissions** (`BlockPerm`, `BlockGraph`, `BlockUpdate`, `BlockSet`, `BlockOps`): the recursive check,
  made before anything is set, succeeds if and only if everything fits afterwards where one path leads to each node;
  loosening an edge and taking a parent away never fail, in any acyclic graph.
- **GDB packets** (`GdbPacket`): escaping, checksums and run lengths. A text survives the round trip exactly when its
  escaped form fits the sender's buffer and the text itself the receiver's.

`Arith` holds facts about products, quotients and remainders, `Common` what several models share. Structures that the source updates in place are classes
(`PhysPageTree`, `AddressSpaceDispatch`, `RAMList`, `ElfWriter`, `Vmcore`, `DataCache`, `Txn`, `BlockLayer`,
`GDBState`); each method is proved against functions and predicates on values, and lemmas state what those mean. Every
lemma carries `{:induction false}`, so its proof is the written one.

Where the code differs from what is said about it:

- `phys_page_compact` calls its leaf case unreachable; it is reached whenever the only child of a node is a leaf.
- In `flatview_add_to_dispatch` and in `get_next_block` one branch each can never be taken; the model has
  `assert false` there.
- `create_header64` computes the place of the page area in 32-bit arithmetic. It lies right after the second bitmap
  exactly when that place is below 4 GiB (`Kdump.PageAreaPlace`); `Kdump.PageAreaWraps` is a case where it does not.
- `block_job_error_action` counts a pause even if the user already paused the job, so that one resume does not let the
  job run again (`BlockJob.StopOnPausedJobLeaks`). One resume lets it run exactly when no stop came while `user_paused`
  was set (`BlockJob.ResumeAfterStop` for one stop, `BlockJob.ResumeRuns` for any list of events).
- `block_job_do_finalize` hands the abort to the finalizing job. If another job's prepare hook failed, the finalizing
  job commits while the others abort (`BlockJobTxn.OutcomeAllOrNothing`, `BlockJobTxn.PrepareFailureSplits`).
- The permission check ignores only edges on the path it follows. With two paths to a node it can let a conflict
  through (`BlockOps.DiamondConflict`). In any acyclic graph an accepted update keeps what leads into clear nodes, those
  reached by one path with no doubly reached node on it (`BlockOps.UpdateKeeps`), and a looser one keeps everything.
- `put_packet_binary` writes into `last_packet` without a check. The writes stay inside it exactly when the text has at
  most 4096 bytes (`GdbPacket.PutPacketBinary`); 2049 bytes that all need escaping exceed it
  (`GdbPacket.EscapedTooLong`), and the limit on feature reads keeps every such reply inside
  (`GdbPacket.FeaturesDelivered`).
- A text longer than 4095 bytes is dropped by the receiver without an answer (`GdbPacket.LongPacketLost`).

## Model

| member | source | states |
|---|---|---|
| `PhysPageMap.PhysPageTree.NodeReserve` | external/qemu/exec.c:262-271 | after reserving there is room for the requested number of nodes; the array grows to the largest of its size, the hint and the need, and only if it must; the tree is unchanged |
| `PhysPageMap.PhysPageTree.NodeAlloc` | external/qemu/exec.c:273-291 | a new node is appended, all unassigned leaves or all NIL by level, and no other node moves |
| `PhysPageMap.PhysPageTree.SetLevel` | external/qemu/exec.c:293-317 | the part of the range inside this entry maps to the leaf and no other page changes; on return either the range is used up or the index is at the parent's next entry; node use stays in the budget |
| `PhysPageMap.PhysPageTree.Set` | external/qemu/exec.c:319-327 | on a free range, exactly the pages of the range map to the section; at most 2 * levels - 1 nodes are allocated, within the reserve of 3 * levels |
| `PhysPageMap.BudgetStep` | external/qemu/exec.c:293-317 | only the first and last entries of a range recurse, so the nodes needed at a level are bounded by those of the level below |
| `PhysPageMap.SlotRange` | external/qemu/exec.c:303-316 | the slot picked by the page's index bits is the one whose page range holds the page |
| `PhysPageMap.OtherSlots` | external/qemu/exec.c:303-316 | storing into one slot leaves lookups through all other slots of the node as they were |
| `PhysPageMap.PhysPageTree.Compact` | external/qemu/exec.c:332-380 | after compaction every page still finds its section, and an unmapped page finds nothing or some section that is mapped elsewhere in the tree |
| `PhysPageMap.Collapse` | external/qemu/exec.c:360-379 | replacing an entry by its only child, skips added, keeps every lookup of a mapped page |
| `PhysPageMap.StrayWalk` | external/qemu/exec.c:400-421 | a walk that skips levels without comparing their bits still ends at a section stored under the entry it started from |
| `PhysPageMap.PhysPageTree.Find` | external/qemu/exec.c:400-421 | the loop over skipped levels computes the walk from the root |
| `Dispatch.FindIsPage` | external/qemu/exec.c:389-421 | the coverage check turns the tree lookup into the exact page to section map |
| `Dispatch.CompactFind` | external/qemu/exec.c:332-421 | compaction changes no result of phys_page_find, because the coverage check rejects the aliases it creates |
| `Dispatch.CompactReady` | external/qemu/exec.c:382-421 | the same for every address and for translation to region and offset |
| `Dispatch.AddressSpaceDispatch.SectionAdd` | external/qemu/exec.c:1447-1464 | the section is appended; it fails exactly when the table has as many sections as a page has bytes |
| `Dispatch.ExistingOk` | external/qemu/exec.c:1489-1502 | for a free piece, the section found at its page is unassigned or a subpage: the assertion in register_subpage holds |
| `Dispatch.AddressSpaceDispatch.RegisterSubpage` | external/qemu/exec.c:1489-1517 | exactly the bytes of the piece now translate to it, all other bytes as before, whether the page had a subpage or not |
| `Dispatch.AddressSpaceDispatch.RegisterMultipage` | external/qemu/exec.c:1520-1531 | the same for a piece of whole pages |
| `Dispatch.AddressSpaceDispatch.AddToDispatch` | external/qemu/exec.c:1533-1562 | head, whole pages and tail together add exactly the section |
| `Dispatch.SubpageRegister` | external/qemu/exec.c:3205-3223 | the entries start to end get the section, or nothing changes when a bound is outside the page |
| `Dispatch.AddressSpaceDispatch.constructor` | external/qemu/exec.c:3317-3335 | a new dispatch has the fixed sections and maps nothing |
| `Dispatch.AddressSpaceDispatch.DispatchCompact` | external/qemu/exec.c:382-387 | every address finds and translates as before |
| `Dispatch.FoundMru` | external/qemu/exec.c:430-447 | a section found for an address may serve as MRU: it is the answer for every address it covers |
| `Dispatch.AddressSpaceDispatch.LookupRegion` | external/qemu/exec.c:430-447 | for every lookup history the MRU shortcut gives the section that phys_page_find gives, subpage resolved on request |
| `Dispatch.AddressSpaceDispatch.TranslateInternal` | external/qemu/exec.c:451-483 | the section and region offset are those the map gives for the byte; the length is cut for RAM so that all its bytes translate to consecutive bytes of the same region, and left alone otherwise |
| `Dispatch.Span` | external/qemu/exec.c:478-481 | from an address to the end of the section it resolves to, split or not, translation is contiguous |
| `Dispatch.Build` | external/qemu/memory.c:750-773 | for every flat view of disjoint sections and every address, the finished dispatch translates to the owning section with its own offset, or to nothing; it is always finished when 4 + 5 times the number of sections is at most 4096 |
| `Exclusive.InitInv` | external/qemu/cpus-common.c:34-40 | the invariant holds before any thread does anything |
| `Exclusive.StartKeeps` | external/qemu/cpus-common.c:223-261 | every atomic step of cpu_exec_start keeps the invariant |
| `Exclusive.EndKeeps` | external/qemu/cpus-common.c:264-297 | every atomic step of cpu_exec_end keeps it |
| `Exclusive.ExclusiveKeeps` | external/qemu/cpus-common.c:171-220 | every atomic step of start_exclusive and end_exclusive keeps it |
| `Exclusive.NextKeeps` | external/qemu/cpus-common.c:171-297 | every step of any thread keeps the invariant |
| `Exclusive.RunInv` | external/qemu/cpus-common.c:171-297 | it holds in every state of every run |
| `Exclusive.ExclusiveSafety` | external/qemu/cpus-common.c:171-297 | while a thread is in its exclusive section no other thread is between cpu_exec_start and cpu_exec_end or in an exclusive section |
| `Exclusive.ExactCount` | external/qemu/cpus-common.c:180-211 | after the scan pending_cpus is 1 plus the CPUs with has_waiter and the one about to decrement, and each of them still has its decrement ahead |
| `Exclusive.DecrementSafe` | external/qemu/cpus-common.c:286-295 | a decrement never takes pending_cpus below 1 |
| `Exclusive.NoLostWakeup` | external/qemu/cpus-common.c:180-297 | a thread asleep unsignalled in start_exclusive means pending_cpus above 1 and a CPU that owes a decrement; one asleep in exclusive_idle means an owner that will broadcast |
| `Exclusive.NoDeadlock` | external/qemu/cpus-common.c:171-297 | while any thread is inside one of the functions, some thread inside can go on without a spurious wake-up |
| `RamList.FindRamOffset` | external/qemu/exec.c:1863-1913 | the offset is behind the block with the smallest gap that fits, the first such in the list; none exactly when no gap fits |
| `RamList.CandidateIs` | external/qemu/exec.c:1880-1888 | the rounded end of a block, with 64-bit wrap-around |
| `RamList.GapFree` | external/qemu/exec.c:1877-1899 | a block placed in a fitting gap overlaps no block |
| `RamList.PlaceOk` | external/qemu/exec.c:1863-1913 | such a block is aligned, inside the space and disjoint from all others |
| `RamList.InsertSorted` | external/qemu/exec.c:2178-2193 | inserting before the first smaller block keeps the list sorted by descending max_length |
| `RamList.ScanUnique` | external/qemu/exec.c:1217-1236 | of disjoint blocks only one contains an address, so the MRU test and the scan agree |
| `RamList.RAMList.GetRamBlock` | external/qemu/exec.c:1217-1253 | the result is the list scan's for every MRU state, and the cache stays sound |
| `RamList.RAMList.Add` | external/qemu/exec.c:2132-2195 | blocks stay aligned, disjoint and sorted; it fails exactly when no gap fits and then changes nothing; all dirty bits below the old last page are kept |
| `RamList.RAMList.Free` | external/qemu/exec.c:2527-2549 | the block is gone, the rest keeps its order, and the cache never names a freed block |
| `RamList.DirtyMemoryExtend` | external/qemu/exec.c:2092-2130 | old chunks are kept and new blank ones added up to the new size |
| `RamList.ExtendKeepsBits` | external/qemu/exec.c:2092-2130 | every bit below the old last page keeps its value |
| `RamList.PagesCovered` | external/qemu/exec.c:1915-1926 | every page of every RAM block has a bit |
| `RamList.InsertLast` | external/qemu/exec.c:1915-1926 | the last RAM byte after an insertion is the larger of the old one and the new block's end |
| `RamList.RemoveLast` | external/qemu/exec.c:2527-2549 | freeing never raises the last RAM byte |
| `DirtyMemory.TestAndClearDirty` | external/qemu/exec.c:1277-1313 | across chunk boundaries: dirty iff some page of the range is, and afterwards exactly those pages are clean |
| `DirtyMemory.SnapshotAndClear` | external/qemu/exec.c:1315-1361 | the snapshot has the flat bitmap's bits of the aligned range, which is then clean; no other bit changes |
| `DirtyMemory.SnapshotGetDirty` | external/qemu/exec.c:1363-1382 | asking the snapshot is asking the bitmap it was taken from |
| `DirtyMemory.ChunkStep` | external/qemu/exec.c:1288-1306 | clearing the part of a range in one chunk extends the cleared prefix of the flat range |
| `ElfDump.DumpCalculateSize` | external/qemu/dump.c:1576-1596 | the computed size is the number of selected bytes |
| `ElfDump.GetOffsetRange` | external/qemu/dump.c:406-465 | no offset exactly when no selected part holds the address; otherwise the offset counts the selected bytes before it and the size stays inside mapping and part |
| `ElfDump.OffsetsAgree` | external/qemu/dump.c:406-465 | every file byte that a program header points at is the guest byte at that physical address |
| `ElfDump.ElfWriter.GetStartBlock` | external/qemu/dump.c:1524-1550 | it stops at the first selected part, and fails only when nothing is selected |
| `ElfDump.ElfWriter.GetNextBlock` | external/qemu/dump.c:607-632 | it moves to the next selected part and skips nothing that is selected |
| `ElfDump.ElfWriter.WriteMemory` | external/qemu/dump.c:380-403 | pages and the remainder together write the requested bytes once, in order |
| `ElfDump.ElfWriter.DumpIterate` | external/qemu/dump.c:635-658 | the loop appends exactly the selected bytes of all blocks |
| `ElfDump.DumpMemory` | external/qemu/dump.c:635-658 | the file holds the selected bytes and written_size equals the calculated size |
| `DumpFile.Vmcore.WriteBuffer` | external/qemu/dump.c:713-732 | one record is appended |
| `DumpFile.AtAppend` | external/qemu/dump.c:713-732 | replayed records: the last one that covers a position decides its byte |
| `GuestPages.GetNextPage` | external/qemu/dump.c:1122-1166 | each call visits the first page not yet visited, with its bytes, and ends when none is left |
| `GuestPages.AllPagesOk` | external/qemu/dump.c:1122-1166 | visited page numbers ascend strictly and each lies in a guest block |
| `GuestPages.PageFound` | external/qemu/dump.c:1122-1166 | every page that lies in a block is visited and carries the guest bytes of its addresses |
| `GuestPages.LastPage` | external/qemu/dump.c:1552-1558 | the last page visited is max_mapnr - 1 |
| `KdumpBitmap.SetDumpBitmap` | external/qemu/dump.c:1049-1100 | earlier chunks are on disk in both bitmaps, the current one in the buffer, and only the bit of pfn changes; nothing outside the bitmaps is written |
| `KdumpBitmap.BitUpdate` | external/qemu/dump.c:1091-1097 | setting or clearing a bit of a byte changes no other bit |
| `KdumpBitmap.ChunksTile` | external/qemu/dump.c:1778-1781 | the flushed chunks tile exactly len_dump_bitmap bytes |
| `KdumpBitmap.WriteDumpBitmap` | external/qemu/dump.c:1168-1218 | both bitmaps are complete and have bit p set iff page p lies in a guest block; the page count is right; nothing else is written |
| `KdumpPages.DescriptorRoundTrip` | external/qemu/dump.c:1335-1338 | a descriptor whose fields fit their widths decodes to itself |
| `KdumpPages.DataCache.constructor` | external/qemu/dump.c:1220-1228 | an empty cache at its offset |
| `KdumpPages.DataCache.WriteCache` | external/qemu/dump.c:1230-1260 | all bytes given are in the file or pending in order; a sync puts all of them into the file; nothing outside their region is written |
| `KdumpPages.PackPage` | external/qemu/dump.c:1353-1446 | the descriptor points at bytes that unpack to the page; zero pages point at the shared slot |
| `KdumpPages.ReadBack` | external/qemu/dump.c:1297-1464 | following descriptor k in the file gives page k |
| `KdumpPages.WriteDumpPages` | external/qemu/dump.c:1297-1464 | every page decodes, zero pages share one slot, nothing before the page area is written, written_size counts all pages |
| `Kdump.PageAreaPlace` | external/qemu/dump.c:1011-1017 | the page area starts right after the second bitmap if and only if that place is below 4 GiB |
| `Kdump.PageAreaWraps` | external/qemu/dump.c:1011-1017 | with 64 TiB of memory the page area is put on top of the first bitmap |
| `Kdump.BelowIsPrefix` | external/qemu/dump.c:1168-1218 | the number of bits set below a page's bit is the page's index |
| `Kdump.PageRecovered` | external/qemu/dump.c:1168-1464 | the page of any set bit, found by counting bits and following the descriptor, holds the guest bytes of its addresses |
| `Kdump.CreateKdump` | external/qemu/dump.c:1466-1522 | descriptors always lead to their pages; when the bitmaps end below 4 GiB the file decodes to guest memory through either bitmap |
| `BlockJob.NeverBackwards` | external/qemu/blockjob.c:46-58 | in every allowed history the stage never goes back, only running/paused and ready/standby alternate, and nothing follows NULL |
| `BlockJob.Moved` | external/qemu/blockjob.c:72-82 | an allowed transition extends an allowed history |
| `BlockJob.NewJob` | external/qemu/blockjob.c:930-942 | a created job is paused once and in order |
| `BlockJob.Start` | external/qemu/blockjob.c:382-392 | starting is an allowed transition and takes back the initial pause |
| `BlockJob.PausePoint` | external/qemu/blockjob.c:1050-1072 | the job pauses iff a pause is counted and it is not cancelled |
| `BlockJob.WakePaused` | external/qemu/blockjob.c:1070-1074 | a woken job goes back to the status it paused in |
| `BlockJob.EventReady` | external/qemu/blockjob.c:1177-1191 | running becomes ready, an allowed transition |
| `BlockJob.DrainEnd` | external/qemu/blockjob.c:309-313 | one drained section less is counted and the assertion on the count holds |
| `BlockJob.ErrorAction` | external/qemu/blockjob.c:1193-1229 | a stop counts a pause and sets user_paused and the I/O status; pause_count exceeds its causes by one more exactly when the job was user-paused already |
| `BlockJob.UserPause` | external/qemu/blockjob.c:725-736 | an accepted pause is counted once |
| `BlockJob.UserResume` | external/qemu/blockjob.c:743-756 | an accepted resume takes one pause back and resets the I/O status |
| `BlockJob.CancelAsync` | external/qemu/blockjob.c:496-509 | the job is cancelled, its user pause is taken back, and nothing else changes |
| `BlockJob.Complete` | external/qemu/blockjob.c:1010-1023 | a failed or cancelled job is ABORTING with an error, any other WAITING |
| `BlockJob.Finalized` | external/qemu/blockjob.c:411-494 | exactly one of commit and abort runs, abort iff the job failed or was cancelled, through allowed transitions only; the job is dismissed at once iff that is automatic or it never started |
| `BlockJob.ResumeAfterStop` | external/qemu/blockjob.c:1222-1227 | a stop and one resume let a job run that nothing else pauses, exactly when the user had not paused it before the stop |
| `BlockJob.SurplusExact` | external/qemu/blockjob.c:1193-1229 | over any list of events the surplus in pause_count is the number of stops that came while user_paused was set |
| `BlockJob.ResumeRuns` | external/qemu/blockjob.c:743-756 | after any list of events since creation, with no drain open, one resume lets a user-paused job run exactly when no stop came while user_paused was set |
| `BlockJob.StopOnPausedJobLeaks` | external/qemu/blockjob.c:1222-1227 | user pause, stop on error, one resume: the job stays paused |
| `BlockJobTxn.Txn.constructor` | external/qemu/blockjob.c:891-989 | a group of created jobs is in order |
| `BlockJobTxn.Txn.CancelOthers` | external/qemu/blockjob.c:589-593 | every member but the failed one is cancelled |
| `BlockJobTxn.Txn.AbortLoop` | external/qemu/blockjob.c:594-604 | members are finalized from the front until one has not completed; if all have, all are finalized |
| `BlockJobTxn.Txn.CompletedTxnAbort` | external/qemu/blockjob.c:566-607 | a second abort does nothing; the first cancels the others and finalizes those that completed |
| `BlockJobTxn.AbortDooms` | external/qemu/blockjob.c:566-607 | from then on every member aborts and none commits |
| `BlockJobTxn.Txn.DoFinalize` | external/qemu/blockjob.c:614-626 | everyone leaves the group; who commits and who aborts depends on the first failing prepare hook and on the finalizing job |
| `BlockJobTxn.OutcomeAllOrNothing` | external/qemu/blockjob.c:614-626 | the outcome is all-or-nothing if and only if no prepare hook fails or the first to fail is the finalizing job's |
| `BlockJobTxn.PrepareFailureSplits` | external/qemu/blockjob.c:614-626 | two jobs, of which the second fails to prepare, finalized through the first: one commits and one aborts |
| `BlockJobTxn.Txn.CompletedTxnSuccess` | external/qemu/blockjob.c:628-652 | the job waits, or all become PENDING and are finalized unless a member wants it done by hand; the assertion on the others' results holds |
| `BlockJobTxn.Txn.Completed` | external/qemu/blockjob.c:1010-1023 | the invariant is kept in any state of the group; a failure starts an abort or joins one; a success waits, or makes a complete group PENDING, and lets it out exactly when no member wants to be finalized by hand |
| `BlockJobTxn.Txn.CompletionBh` | external/qemu/blockjob.c:1238-1261 | the same for a deferred completion; an abort that waited for this job goes on until it must wait for another |
| `BlockJobTxn.Txn.CancelJob` | external/qemu/blockjob.c:758-772 | any existing job can be cancelled in any status without a failing assertion: a concluded one is dismissed, one that has not started or has deferred brings the group down, a running one is marked and woken |
| `BlockJobTxn.Txn.UserCancel` | external/qemu/blockjob.c:774-780 | accepted exactly in the statuses of the verb table; refused without effect |
| `BlockJobTxn.Txn.FinalizeJob` | external/qemu/blockjob.c:703-710 | accepted exactly when PENDING, and then the whole group is PENDING and leaves |
| `BlockJobTxn.Txn.DismissJob` | external/qemu/blockjob.c:712-723 | accepted exactly when CONCLUDED |
| `BlockJobTxn.Txn.EarlyFail` | external/qemu/blockjob.c:1004-1008 | a job that fails before it starts leaves without commit or abort |
| `BlockJobTxn.Txn.Run` | external/qemu/blockjob.c:382-1229 | any list of events keeps the invariant: histories are allowed and only grow, and unless a prepare hook fails no job commits while another aborts |
| `BlockJobTxn.FinishedTogether` | external/qemu/blockjob.c:460-652 | when all have left, every started job ran exactly one hook, and all of them the same |
| `BlockPerm.ChildPermMonotone` | external/qemu/block.c:1924-1994 | looser cumulative masks give a child looser masks, for filters and formats |
| `BlockPerm.ChildPermAbsorbs` | external/qemu/block.c:1924-1994 | updating a child twice is the same as updating it once |
| `BlockPerm.ChildPermTolerant` | external/qemu/block.c:1924-1994 | if all parents share write_unchanged so does the child edge |
| `BlockPerm.FormatFileExclusive` | external/qemu/block.c:1950-1972 | the file masks of a writable format node conflict with those of any other active format node |
| `BlockPerm.BackingAlwaysShared` | external/qemu/block.c:1973-1985 | the backing masks of any two format nodes are compatible |
| `BlockOps.NoTwoWriters` | external/qemu/block.c:1942-1994 | in every graph kept in order no file is used by a writable image and by another active one, unless sharing is forced |
| `BlockOps.BackingNeverRefused` | external/qemu/block.c:1973-1985 | one more image on a backing file never conflicts with the images that use it already |
| `BlockOps.FilterGuards` | external/qemu/block.c:1924-1940 | what the users of a filter need and share of the data holds against all other users of the filtered node |
| `BlockUpdate.CheckExact` | external/qemu/block.c:1657-1883 | the recursive check on the old masks succeeds if and only if, after the update, the node accepts its masks and every edge below fits |
| `BlockUpdate.LooseningChecks` | external/qemu/block.c:2057-2064 | for looser masks of a node the check succeeds through the whole subtree |
| `BlockUpdate.LooseningLoosens` | external/qemu/block.c:1731-1760 | and the update then loosens every edge below |
| `BlockOps.BlockLayer.GetCumulative` | external/qemu/block.c:1762-1776 | the union of what all parents need and the intersection of what they share |
| `BlockOps.BlockLayer.CheckUpdatePerm` | external/qemu/block.c:1823-1868 | true iff no parent outside the ignored edges conflicts and the node's check succeeds |
| `BlockOps.BlockLayer.CheckPerm` | external/qemu/block.c:1657-1704 | true iff the node accepts the masks and every child edge can follow |
| `BlockOps.BlockLayer.SetPerm` | external/qemu/block.c:1731-1760 | in any acyclic graph, exactly the edges below change and each ends with what its parent's final cumulative masks say |
| `BlockOps.BlockLayer.TrySetPerm` | external/qemu/block.c:1902-1916 | for any edge of any acyclic graph: it succeeds iff the check does; a refusal leaves every edge unchanged; an accepted update keeps all edges into clear nodes fitting, and all pairs of users compatible where one path leads to each node; a looser mask is never refused and keeps all pairs compatible whatever the paths |
| `BlockOps.UpdateExact` | external/qemu/block.c:1872-1916 | where one path leads to each node, an update of any edge is accepted if and only if every edge of the graph fits afterwards |
| `BlockSet.CheckedFits` | external/qemu/block.c:1657-1704 | in any acyclic graph the check is right about every edge at the end of a path without doubly reached nodes |
| `BlockOps.UpdateKeeps` | external/qemu/block.c:1872-1916 | in any acyclic graph an accepted update keeps every fitting edge into a clear node fitting |
| `BlockOps.LooserNeverFails` | external/qemu/block.c:1902-1916 | in any acyclic graph kept in order, a looser mask passes the check |
| `BlockOps.LooserFits` | external/qemu/block.c:1885-1895 | setting it loosens every edge that changes and keeps every edge fitting |
| `BlockOps.BlockLayer.Attach` | external/qemu/block.c:2050-2101 | for any new edge of any acyclic graph: accepted iff the check succeeds, refused without effect; the new edge fits, edges into clear nodes go on fitting, and all pairs stay compatible where one path leads to each node |
| `BlockOps.BlockLayer.AttachChild` | external/qemu/block.c:2103-2127 | the same with the masks taken from the parent node; the assertion on write_unchanged holds |
| `BlockOps.DetachNeverFails` | external/qemu/block.c:2057-2064 | in any acyclic graph kept in order, the re-check after removing a parent succeeds through the whole subtree |
| `BlockOps.BlockLayer.Detach` | external/qemu/block.c:2129-2140 | the edge is gone, the re-check succeeds, every change loosens, and all pairs of users stay compatible |
| `BlockOps.FitIsCompatible` | external/qemu/block.c:1823-1868 | fitting means that of any two users of a node each one's permissions are among those the other shares |
| `BlockOps.DiamondConflict` | external/qemu/block.c:1872-1883 | with two paths to one node an accepted update leaves two edges in conflict |
| `GdbPacket.HexRoundTrip` | external/qemu/gdbstub.c:490-508 | a digit written in hex reads back |
| `GdbPacket.MemToX` | external/qemu/gdbstub.c:615-633 | the buffer is the escaped memory |
| `GdbPacket.PutPacketBinary` | external/qemu/gdbstub.c:568-604 | all writes stay inside last_packet if and only if the text has at most 4096 bytes, and then it holds the framed text with its checksum |
| `GdbPacket.SignedSumMod` | external/qemu/gdbstub.c:582-587 | summing signed characters gives the checksum of the unsigned ones modulo 256 |
| `GdbPacket.GDBState.ReadByte` | external/qemu/gdbstub.c:1585-1724 | for every byte and state the line buffer stays within its limit and the state follows the parser |
| `GdbPacket.PacketDecodes` | external/qemu/gdbstub.c:1585-1724 | a packet of plain, escaped and run-length items that fits is acknowledged and handled as its expansion |
| `GdbPacket.LongPacketLost` | external/qemu/gdbstub.c:1637-1639 | a text of more than 4095 bytes is dropped by the decoder without acknowledgement |
| `GdbPacket.DecoderLimit` | external/qemu/gdbstub.c:1585-1724 | the decoder acknowledges an escaped, framed text and hands it over unchanged if and only if it has at most 4095 bytes |
| `GdbPacket.EscapeLength` | external/qemu/gdbstub.c:615-633 | escaping never shortens a text and at most doubles it |
| `GdbPacket.PacketRoundTrip` | external/qemu/gdbstub.c:568-633 | a text fits last_packet and is handed over unchanged if and only if its escaped form has at most 4096 bytes and itself at most 4095; up to 2048 bytes it always does |
| `GdbPacket.EscapedTooLong` | external/qemu/gdbstub.c:568-633 | 2049 bytes that all need escaping fit the decoder and not last_packet |
| `GdbPacket.FeaturesRead` | external/qemu/gdbstub.c:1382-1396 | the answer to a feature read is the clamped part of the document behind its letter, escaped, and at most 4092 bytes long; an offset beyond the document is an error |
| `GdbPacket.FeaturesDelivered` | external/qemu/gdbstub.c:1387-1396 | so every such answer fits last_packet and is handed over unchanged |

## Left out

- PhysPageMap.PhysPageTree.Set: already mapped ranges; its callers never map a page twice, and inside a range mapped as one entry the source would follow a section number as a node.
- Dispatch: target pages of 4 KiB and six levels are fixed.
- Dispatch: IOMMU translation, RCU and the load/store paths behind a translated address.
- Exclusive: adding and removing CPUs during a run, and the queue of work items; memory barriers are taken to give sequential consistency; that a thread which can go on is eventually scheduled is not stated.
- RamList.RAMList.Add: allocation of host memory, migration and file backing; a block that cannot be placed is refused where the source aborts.
- DirtyMemory: bitmaps are sequences of booleans; word-wise atomic operations are not modelled.
- ElfDump.ElfWriter.WriteMemory: failing writes.
- Kdump: headers, notes and the start and end markers of the flattened format; failing writes; big-endian targets; the compression libraries, which are a compressor that may fail and its inverse.
- Kdump.CreateKdump: needs a page size of at least 6 bytes, as write_cache asserts, and offsets below 2^64.
- BlockJob: AioContext locks, coroutines, events for the monitor, speed and reference counts; drivers complete by deferral and never clear the cancelled flag.
- BlockJobTxn.Txn.AbortLoop: an abort that waits for a job that was never started waits forever; the model states safety only.
- BlockJobTxn.Txn.Run: monitor commands are not served while an abort waits, as in the source's nested event loop.
- BlockOps.BlockLayer.TrySetPerm: for nodes reached by several paths an accepted tightening update promises nothing, since it can leave a conflict there (BlockOps.DiamondConflict); an update of an edge inside the graph leaves that edge with masks other than its parent's.
- BlockOps.BlockLayer.Attach: the same for nodes reached by several paths.
- BlockUpdate: reopening, replacing nodes, and drivers with their own bdrv_child_perm; a driver's own bdrv_check_perm belongs to nodes without children and accepts looser masks whenever it accepted tighter ones.
- GdbPacket: the command handlers other than the feature read, which appear as the reply they leave; what a write beyond last_packet does.

# S4Sim storage stack: a verified model

S4Sim simulates a solid state drive: firmware that runs on simulated processors (an NVMe front end, a page-mapping flash
translation layer and a low-level NAND driver), a NAND controller with its DMA engines, and a shared-memory link to a host
emulator. This project models the three layers and proves what they promise together.

* **Translation layer.** `Geometry`, `MappingTables` (the tables as values, with their invariants), `FlashTranslation` (the
  same tables as arrays changed in place), `EqualPages` (a NAND page holds one host page), `UnequalPages` (a NAND page holds
  several), `TableStore` (tables saved at shutdown and restored at start) and `TableLifetime` (runs of flushes, shutdowns
  and starts). The medium always stands for a flat disk; a batch
  of writes is an update of that disk.
* **NAND controllers and driver.** `NandController` (the event-driven state machine), `NandEvents` (its handlers as they run
  in place), `NandSerialisation` (every order of completion events has the effect of running the commands one by one),
  `NandProgress` (nothing stalls, and the poll loop ends only at rest), `NandDriver` and `NandPushes` (flash operations split
  into commands), `NandIo` (the page-by-page meaning those proofs justify, used by the translation layer).
* **Front end.** `WholeDevice` and `DeviceProgress` (NVMe thread, page buffer, translation layer and flash as one machine:
  read after write over every interleaving), `BufferManager`, `WideWrites` (the write path onto larger NAND pages),
  `PrpList`, `PrpStandard` and `HostDma` (data pointers, when they are read as the standard says, and the copies made
  through them), `CompletionRing`, `SharedMemory` (the handshake with the host), and `Rings` (queues, FIFOs and pools).

Geometry, page sizes, queue sizes and memory page size are parameters. Where the source runs in place, a class or method
with loops is proved equal to a specification function, and the promises are lemmas about that function. Protocols are
state machines; a proof over "every interleaving" quantifies over all event sequences that the machine allows.

Points where the code differs from its evident intent are kept as results rather than hidden:

* the wrap test of the page search (`MappingTables.WrapAsWrittenInRangeIff`);
* header pages 1 and 2, which are written but not reserved, so that a shutdown can overwrite logical pages and the tables
  themselves (`TableStore.FirstWriteOnHeader`, `TableStore.FirstStoreOnHeader`, `TableStore.ContentAfterStore`,
  `TableStore.RestoresIff`);
* totals and valid counters after a store (`TableStore.TotalsDriftByStore`, `TableStore.BlockCountersAfterStore`);
* stale bytes and duplicates with larger NAND pages (`UnequalPages.FlushContent`, `UnequalPages.DuplicateLosesNeighbour`),
  and the slot of an unmapped page that a read leaves as it was (`UnequalPages.UnequalFtl.ReadPages`);
* pages beyond the 128th of an operation (`EqualPages.SyncProgramContent`);
* list pointers with a page offset, read otherwise than section 4.3 of NVM Express 1.1 lays the list out
  (`PrpStandard.DecodesAsStandardIff`), and transfers of more segments than the 16 slots of firmware/global.h:57, which
  the decoder fills without a test (`PrpList.SegmentsCount`);
* the range check that lets a request end one page late or wrap past 2^64 (`WholeDevice.AcceptedInNamespaceIff`), and the
  doorbell poll lost with a refused request (`WholeDevice.RefusalStopsPolling`);
* completions dropped when the pending queue is full (`CompletionRing.DroppedIff`);
* the pool of program operations, which holds one operation (`Rings.ProgramOpIsNullIff`), and the full flag that the
  command FIFO can miss (`Rings.SimpleFifo.Push`).

`dafny verify dfyconfig.toml` checks everything.

## Model

| member | source | states |
|---|---|---|
| `MappingTables.NoSharedPage` | firmware/ftl_page_mapping/ftl.h:54-85 | in every consistent state each mapped logical page sits on an in-range page that names it, and no two logical pages share a flash page |
| `MappingTables.OdometerIsOneCycle` | firmware/ftl_page_mapping/ftl.c:147-163 | the channel/die/plane successor is one cycle: in TotalPlanes steps from any plane each plane is met exactly once, at its ring distance |
| `MappingTables.ScanIsFindFree` | firmware/ftl_page_mapping/ftl.c:172-244 | on a plane that is a log, the nested block/page scan finds exactly the page at the cursor (next block when the block is used up), and nothing exactly when the plane is full |
| `MappingTables.WrapAsWrittenInRangeIff` | firmware/ftl_page_mapping/ftl.c:193-197 | the wrap test as written (`>`) keeps the scan inside the table if and only if the plane has a free page or a single block; it then finds the same page as the intended test |
| `MappingTables.GetFreeTakesFirstOpenPlane` | firmware/ftl_page_mapping/ftl.c:256-311 | the page comes from the first plane with room in odometer order; the number of searches is its ring distance plus one, and every plane before it is full |
| `MappingTables.GetFreeFindsFree` | firmware/ftl_page_mapping/ftl.c:256-311 | whenever any page is FREE, allocation ends within one search per plane with a page that was FREE |
| `MappingTables.OdometerOnPageTaken` | firmware/ftl_page_mapping/ftl.c:178-187 | an allocation leaves the odometer, and the last page selected, on the plane and block of the page it took, one page past it, and changes no entry, counter or total |
| `MappingTables.NextPlaneIsTaken` | firmware/ftl_page_mapping/ftl.c:147-163 | with room on the next plane of the odometer, one search is enough and the page comes from that plane |
| `MappingTables.MappingMovesOdometer` | firmware/ftl_page_mapping/ftl.c:314-358 | a mapping leaves the odometer on the plane of the page it took, whose ring distance from where it stood is the number of searches less one |
| `MappingTables.FullIffNoFreePage` | firmware/ftl_page_mapping/ftl.c:165-198 | a plane's cursor is at its end exactly when the plane has no FREE page; otherwise the next page is FREE and belongs to the plane |
| `MappingTables.RoomIffFreePage` | firmware/ftl_page_mapping/ftl.c:256-262 | some plane has room exactly when some page is FREE, that is when the count of FREE pages is positive |
| `MappingTables.TakeKeepsLog` | firmware/ftl_page_mapping/ftl.c:178-187 | once the page taken is no longer FREE its plane is again a log: exactly the pages before the cursor are not FREE |
| `MappingTables.MakeMappingKeepsCore` | firmware/ftl_page_mapping/ftl.c:314-358 | a new mapping keeps the tables inverse and every plane a log; it takes a FREE page, moves exactly this logical page there, turns the page it left INVALID, and changes no other entry |
| `MappingTables.MakeMappingKeepsCounts` | firmware/ftl_page_mapping/ftl.c:322-355 | block counters (16 bits) and totals still equal the counts of pages in each state |
| `MappingTables.MakeMappingTakesOne` | firmware/ftl_page_mapping/ftl.c:314-358 | every new mapping uses up exactly one FREE page |
| `MappingTables.Conservation` | firmware/ftl_page_mapping/ftl.h:133-180 | free + valid + invalid totals equal the number of pages, and GET_FREE_PAGES of each block is its number of FREE pages |
| `MappingTables.NewMediaCore` | firmware/ftl_page_mapping/ftl.c:68-111 | the tables of a new medium are consistent, with any number of header pages reserved |
| `MappingTables.NewMediaCounted` | firmware/ftl_page_mapping/ftl.c:99-109 | and their counters and totals are exact (a reserved page counts as valid) |
| `MappingTables.FirstPageOfNewMedia` | firmware/ftl_page_mapping/ftl.c:68-111 | with more than one plane, the first page a new medium gives away is page 0 of block 0 on the plane after the header's |
| `FlashTranslation.Ftl.constructor` | firmware/ftl_page_mapping/ftl.c:68-111 | the initialisation loops leave exactly the tables of a new medium with one reserved page |
| `FlashTranslation.Ftl.ScanFrom` | firmware/ftl_page_mapping/ftl.c:172-249 | the two search loops compute the plane scan from the cursor |
| `FlashTranslation.Ftl.FindFreePage` | firmware/ftl_page_mapping/ftl.c:145-250 | one search: next plane in odometer order, cursor, last-searched and last-selected as the specification has them on success and on failure, and nothing else changed; what the specification does is said by OdometerOnPageTaken and GetFreeTakesFirstOpenPlane of MappingTables |
| `FlashTranslation.Ftl.GetFreePpa` | firmware/ftl_page_mapping/ftl.c:256-311 | the retry loop terminates whenever some page is FREE, returns the page of the specification, which was FREE, and leaves its tables, so that the next search starts from the plane of this page |
| `FlashTranslation.Ftl.MakeNewMapping` | firmware/ftl_page_mapping/ftl.c:314-358 | updating the arrays in place equals the mapping specification; consistency and exact counts are kept |
| `FlashTranslation.Ftl.UpdateMapping` | firmware/ftl_page_mapping/ftl.c:322-355 | the sequence of table and counter updates equals the remap of the specification, for unmapped and mapped logical pages |
| `Geometry.AddressCyclesRoundTrip` | SSD_hw_platforms/gem5/extra_sim_objects/iSSDNandCtrl.hh:271-283 | page and block survive the packing into two 16-bit fields sent as address bytes |
| `Geometry.PageNumberBijective` | SSD_hw_platforms/gem5/extra_sim_objects/iSSDNandCtrl.hh:314-321 | the path from a physical page address through chip index, address bytes and the 32-bit page offset has an inverse on in-range addresses |
| `Geometry.PageNumberOnto` | SSD_hw_platforms/gem5/extra_sim_objects/iSSDNandCtrl.hh:314-321 | and every page number of the image is reached |
| `Geometry.ByteOffsetExactIff` | SSD_hw_platforms/gem5/extra_sim_objects/iSSDNandCtrl.hh:318-332 | the 32-bit byte offset of every page is exact if and only if the flash is at most 4 GB |
| `Geometry.AllPagesCount` | firmware/global_macro.h:18-29 | there are exactly TOTAL_NUM_OF_PAGES in-range page addresses |
| `NandIo.ProgramAt` | firmware/low_level_nand_io.c:147-209 | programming distinct pages gives each its own buffer's content and leaves all other pages |
| `NandIo.ReadIntoAt` | firmware/low_level_nand_io.c:83-146 | reading into distinct slots fills each with its own page and leaves all other slots |
| `NandIo.Nand.SyncProgram` | firmware/low_level_nand_io.c:263-268 | an operation programs its pages one by one in order |
| `NandIo.Nand.SyncRead` | firmware/low_level_nand_io.c:236-241 | an operation reads its pages one by one in order |
| `EqualPages.WriteOneRefines` | firmware/ftl_page_mapping/equal.pages.c:82-165 | one out-of-place page write is one update of the flat disk |
| `EqualPages.WriteAllRefines` | firmware/ftl_page_mapping/equal.pages.c:82-165 | a batch written out of place is the same batch written in order to the flat disk (duplicates included) |
| `EqualPages.MapThenProgram` | firmware/ftl_page_mapping/equal.pages.c:96-160 | mapping the whole batch first and programming it afterwards equals writing its pages one after another |
| `EqualPages.MapAllTakesFreshPages` | firmware/ftl_page_mapping/equal.pages.c:100-154 | the pages a batch takes are distinct, were FREE, are not FREE afterwards, and nothing became FREE |
| `EqualPages.MapAllStripes` | firmware/ftl_page_mapping/ftl.c:147-163 | while every plane has room, the k-th of consecutive mappings takes its page on the plane that the odometer reaches in k steps, and the odometer ends on the plane of the last |
| `EqualPages.EveryPlaneOnce` | firmware/ftl_page_mapping/ftl.c:147-163 | any TotalPlanes consecutive ones of them use every plane exactly once, each at its ring distance |
| `EqualPages.EqualFtl.ProcessWbc` | firmware/ftl_page_mapping/equal.pages.c:82-165 | the flush loop over the cache entries leaves exactly the medium of the batch write of its valid entries |
| `EqualPages.EqualFtl.ReadPages` | firmware/ftl_page_mapping/equal.pages.c:10-80 | a read delivers every page's content (zeros when never written) and changes no table and no flash page; mapped pages beyond the 128th of an operation are not read |
| `EqualPages.EqualFtl.SyncProgramPages` | firmware/ftl_page_mapping/equal.pages.c:236-312 | maps every page of the request and programs the first 128 |
| `EqualPages.SyncProgramContent` | firmware/ftl_page_mapping/equal.pages.c:236-312 | for every logical page, what it reads as afterwards: new content for the first 128 of the request, the old content of the fresh page beyond that, unchanged elsewhere |
| `EqualPages.RunRefines` | firmware/ftl_page_mapping/equal.pages.c:82-165 | any run of flushes and programs refines the flat disk |
| `EqualPages.RunFromNewMedia` | firmware/ftl_page_mapping/equal.pages.c:10-165 | from a new medium, whatever the flash held, every page reads as zeros until written and as last written from then on |
| `EqualPages.NoPageProgrammedTwice` | firmware/ftl_page_mapping/equal.pages.c:82-165 | over any run the pages programmed are as many as the writes, distinct and initially FREE; page i of them holds the data of the i-th write of the run at its end, and every other flash page is as before |
| `EqualPages.BatchHolding` | firmware/ftl_page_mapping/equal.pages.c:96-160 | one batch: the pages it takes hold its data in order, and every other flash page is as before |
| `UnequalPages.CountReachesAllIff` | firmware/ftl_page_mapping/unequal.pages.c:307-314 | for distinct host pages mod_host_pages reaches HOST_PER_NAND_PAGES exactly when every part of the NAND page is present |
| `UnequalPages.NandPageIff` | firmware/ftl_page_mapping/unequal.pages.c:267-297 | the grouping lists a NAND page exactly when some entry of the batch falls into it |
| `UnequalPages.FlushContent` | firmware/ftl_page_mapping/unequal.pages.c:223-421 | for any batch and any stale buffers, what every host page reads as after a flush: the last entry's data; unchanged; or, where the old page was not read, the stale buffer's part |
| `UnequalPages.FlushRefines` | firmware/ftl_page_mapping/unequal.pages.c:223-421 | a flush of distinct host pages gives each its new content and leaves every other page of the disk unchanged, although the mapping moves before the old page is read |
| `UnequalPages.FlushRunRefines` | firmware/ftl_page_mapping/unequal.pages.c:223-421 | the same over any run of flushes, with the stale buffers carried along |
| `UnequalPages.DuplicateLosesNeighbour` | firmware/ftl_page_mapping/unequal.pages.c:299-314 | a batch naming a host page twice makes its neighbour read as the stale buffer: distinctness is needed |
| `UnequalPages.UnequalFtl.ProcessWbc` | firmware/ftl_page_mapping/unequal.pages.c:223-421 | grouping with its inner search, read of old pages, merge and program loops together equal the flush specification |
| `UnequalPages.UnequalFtl.SyncProgramPages` | firmware/ftl_page_mapping/unequal.pages.c:594-787 | the same for consecutive host pages |
| `UnequalPages.UnequalFtl.ReadPages` | firmware/ftl_page_mapping/unequal.pages.c:55-221 | every host page of a mapped NAND page is delivered; one of an unmapped NAND page is only redirected and its slot keeps what it held; tables, flash and other slots are unchanged |
| `UnequalPages.UnequalFtl.FindPage` | firmware/ftl_page_mapping/unequal.pages.c:267-273 | the inner search finds the entry for a NAND page if there is one |
| `UnequalPages.RangePagesDistinct` | firmware/ftl_page_mapping/unequal.pages.c:623-671 | consecutive host pages are distinct, so the flush lemma applies to them |
| `NandController.ActiveFits` | SSD_hw_platforms/gem5/extra_sim_objects/iSSDNandCtrl.hh:771-946 | the 8-bit activity counter equals the busy chips plus one for a transfer and cannot wrap with up to 128 chips |
| `NandController.PumpKeeps` | SSD_hw_platforms/gem5/extra_sim_objects/iSSDNandCtrl.hh:820-934 | issuing queued commands keeps the controllers' invariant, touches only its channel and stops only when the channel has to wait |
| `NandController.DmaCompleteKeeps` | SSD_hw_platforms/gem5/extra_sim_objects/iSSDNandCtrl.hh:771-817 | a DMA completion keeps the invariant, including the hand-over of the engine |
| `NandController.OpCompleteKeeps` | SSD_hw_platforms/gem5/extra_sim_objects/iSSDNandCtrl.hh:936-947 | a chip completion keeps the invariant |
| `NandController.PushKeeps` | SSD_hw_platforms/gem5/extra_sim_objects/iSSDNandCtrl.cc:398-425 | a pushed command keeps the invariant |
| `NandEvents.NandCtrls.ProcessWaitingRoom` | SSD_hw_platforms/gem5/extra_sim_objects/iSSDNandCtrl.hh:820-934 | the self-calling routine, updating records in place, equals the transition of the state machine |
| `NandEvents.NandCtrls.RunDma` | SSD_hw_platforms/gem5/extra_sim_objects/iSSDNandCtrl.hh:682-710 | the toggled choice between the two channels as specified |
| `NandEvents.NandCtrls.IssueCommand` | SSD_hw_platforms/gem5/extra_sim_objects/iSSDNandCtrl.hh:842-930 | each of the four commands has its specified effect on chip, channel and engine |
| `NandEvents.NandCtrls.PushCommand` | SSD_hw_platforms/gem5/extra_sim_objects/iSSDNandCtrl.cc:398-425 | queueing, and processing if the queue was empty |
| `NandEvents.NandCtrls.DmaCompleteCallBack` | SSD_hw_platforms/gem5/extra_sim_objects/iSSDNandCtrl.hh:771-817 | the handler equals the transition and keeps the controllers in order |
| `NandEvents.NandCtrls.FinishTransfer` | SSD_hw_platforms/gem5/extra_sim_objects/iSSDNandCtrl.hh:771-812 | the end of a transfer, with the delayed second program cycle, as specified |
| `NandEvents.NandCtrls.OperationCompleteCallBack` | SSD_hw_platforms/gem5/extra_sim_objects/iSSDNandCtrl.hh:936-947 | the handler equals the transition and keeps the controllers in order |
| `NandSerialisation.Commute` | SSD_hw_platforms/gem5/extra_sim_objects/iSSDNandCtrl.hh:820-934 | commands of different channels that do not conflict over a RAM page commute |
| `NandSerialisation.Promote` | SSD_hw_platforms/gem5/extra_sim_objects/iSSDNandCtrl.hh:820-934 | the first outstanding command of any channel may be run before everything issued earlier on the others |
| `NandSerialisation.Serialisable` | SSD_hw_platforms/gem5/extra_sim_objects/iSSDNandCtrl.hh:673-947 | from rest to rest, under every order of completion events interleaved with the pushes, chips, flash image and RAM end up as if the commands had run one by one in issue order |
| `NandProgress.BusyChannelHasEvent` | SSD_hw_platforms/gem5/extra_sim_objects/iSSDNandCtrl.hh:766-947 | a channel that is not quiet has a completion event outstanding that looks at its queue again |
| `NandProgress.RunWork` | SSD_hw_platforms/gem5/extra_sim_objects/iSSDNandCtrl.hh:766-947 | work is conserved: every completion event does exactly one unit, so rest is reached after exactly the work present plus the weight of what was pushed |
| `NandProgress.NeverStalls` | SSD_hw_platforms/gem5/extra_sim_objects/iSSDNandCtrl.hh:766-947 | as long as the controllers are not at rest some completion event can happen |
| `NandProgress.WaitingChannelIsNext` | SSD_hw_platforms/gem5/extra_sim_objects/iSSDNandCtrl.hh:682-710 | a waiting channel gets the DMA engine after at most one transfer of the other channel, whatever the toggle |
| `NandProgress.PollEndsAtRest` | firmware/low_level_nand_io.c:127-143 | operation counts that read 0 one after another, with events in between, are all 0 together: the poll loop ends only when every operation has taken effect |
| `NandDriver.SwitchedOnGood` | SSD_hw_platforms/gem5/extra_sim_objects/iSSDNandCtrl.hh:613-633 | controllers just switched on, with an arbitrary engine toggle, satisfy everything the operation lemmas ask of the state before |
| `NandDriver.LocationInjective` | firmware/low_level_nand_io.c:99-118 | different page addresses reach different flash rows |
| `NandDriver.ProgramCommandsMean` | firmware/low_level_nand_io.c:153-187 | run one by one, the command pairs of a program operation have its page-by-page meaning |
| `NandDriver.SyncFlashProgram` | firmware/low_level_nand_io.c:147-209 | however pushes and completions interleave, when the poll loop ends the flash has been programmed page by page as the operation says and RAM is unchanged |
| `NandDriver.SyncFlashRead` | firmware/low_level_nand_io.c:83-146 | the same for reads into distinct buffers; the flash is unchanged |
| `NandDriver.OperationEvents` | firmware/low_level_nand_io.c:83-209 | an operation of n pages is at rest after exactly 2n completion events |
| `NandPushes.RunTail` | SSD_hw_platforms/gem5/extra_sim_objects/iSSDNandCtrl.cc:398-425 | completion events never change what a channel's queue leaves half done, and the queue is no longer than what was pushed to it |
| `NandPushes.PushAlwaysEnabled` | firmware/low_level_nand_io.c:93-187 | whatever completions have happened, the next command of an operation may be pushed |
| `NandPushes.OperationLeavesReady` | firmware/low_level_nand_io.c:83-209 | a finished operation leaves the controllers ready for the next: at rest, with no chip in the middle of a program |
| `NandPushes.FifoFits` | SSD_hw_platforms/gem5/extra_sim_objects/iSSDNandCtrl.hh:535-555 | an operation of 128 pages never puts more than 256 commands into a FIFO, so the missing full flag is never reached |
| `Rings.SimpleFifo.Push` | SSD_hw_platforms/gem5/extra_sim_objects/iSSDNandCtrl.hh:535-555 | refused exactly when the full flag is set; the flag stays exact below 1023 items, so that the first refusal comes at 1023 items with the head away from slot 0; an accepted push is appended up to 1024 items, and beyond that overwrites the oldest |
| `Rings.SimpleFifo.Pop` | SSD_hw_platforms/gem5/extra_sim_objects/iSSDNandCtrl.hh:571-594 | the FIFO gives back items in order and keeps its full flag as exact as it was |
| `Rings.Queue.EnQueue` | firmware/util.containers.c:14-23 | refused exactly when all slots but one are taken, else appended |
| `Rings.Queue.DeQueue` | firmware/util.containers.c:25-34 | the oldest item, or none when empty |
| `Rings.BufferQueue.Push` | firmware/nvme_driver.c:1030-1035 | appended below capacity; with every slot taken the push forgets all that was queued |
| `Rings.BufferQueue.Pop` | firmware/nvme_driver.c:1038-1044 | the oldest request, and the empty flag is exact |
| `Rings.Pool.constructor` | firmware/issd_kernel_mem_alloc.c:19-61 | the initialisation loop queues every object but the last |
| `Rings.Pool.Malloc` | firmware/issd_kernel_mem_alloc.c:63-102 | no object is handed out twice, and one is handed out unless all are in use |
| `Rings.Pool.Free` | firmware/issd_kernel_mem_alloc.c:222-266 | an object in use returns to the pool exactly once; there is always room for it |
| `Rings.OpPool.Malloc` | firmware/low_level_nand_io.c:310-331 | in the pool of read operations, while not all are out, the longest idle one, which nobody else holds |
| `Rings.OpPool.Free` | firmware/low_level_nand_io.c:333-353 | an operation that is out becomes the last of the idle ones |
| `Rings.FillProgramOps` | firmware/low_level_nand_io.c:299-305 | the loop over the program operations leaves the last of them in slot 0 and every other slot as it was |
| `Rings.ProgramOpIsNullIff` | firmware/low_level_nand_io.c:299-331 | from that pool, and whatever has been returned in between, each allocation other than the first gives a null operation until the ring has turned once |
| `Rings.ItemsPush` | firmware/util.containers.c:17-20 | writing at the tail of a ring appends to the list it stands for |
| `Rings.ItemsPop` | firmware/util.containers.c:29-31 | moving the head of a ring drops the first of the list it stands for |
| `WholeDevice.AcceptedInNamespaceIff` | firmware/nvme_driver.c:991-1020 | the range check accepts every request inside the namespace; an accepted one lies inside it if and only if the 64-bit sum does not wrap and the request does not end one page past the end |
| `WholeDevice.AcceptedOutside` | firmware/nvme_driver.c:999 | both kinds of accepted request outside the namespace exist, for every namespace size |
| `WholeDevice.ReplayIsLastWrite` | firmware/nvme_driver.c:1178-1201 | after a log of writes a page holds the data of the last write covering it |
| `WholeDevice.RunTakesCommands` | firmware/nvme_driver.c:991-1248 | over any run, the writes that have got the buffer followed by those queued are exactly the writes submitted and taken, in order and unchanged; exactly the commands of more than 16 pages or ending more than one page past the namespace are refused |
| `WholeDevice.RunTakesReads` | firmware/nvme_driver.c:1067-1176 | over any run, the reads returned, the one under way and those queued are exactly the reads submitted and taken, in order: none is lost, invented or overtaken |
| `WholeDevice.FlushesTheWrite` | firmware/buffer_mgt_1wbc-r.c:43-69 | the cache entries valid during a write are flushed as exactly that write |
| `WholeDevice.StepKeeps` | firmware/nvme_driver.c:1067-1429 | every step of the NVMe thread and of the translation layer, at page granularity, keeps: one owner of the page buffer, the buffer's content, and the relation between medium and log |
| `WholeDevice.FlushDone` | firmware/ftl_page_mapping/equal.pages.c:82-165 | when every page of a flush is programmed, in any order, the medium is the disk with exactly the last write of the log applied |
| `WholeDevice.ReadAfterWrite` | firmware/nvme_driver.c:1178-1201 | in every interleaving a read submitted after the completion of write k of those the host submitted was posted returns that write's data or a later one's, page by page, although completions are posted before the flash is programmed |
| `WholeDevice.ReadsWereSubmitted` | firmware/nvme_driver.c:1116-1176 | over any run, every read that is anywhere in the device or has been returned was submitted by an event of the run, and carries the number of completions posted until that event |
| `WholeDevice.ReadAfterWriteOverRuns` | firmware/nvme_driver.c:1116-1201 | over whole runs, in terms of the host's commands alone: a returned read was submitted by some event, and returns the disk after the first n writes submitted, which include every write acknowledged before that event; each of its pages covered by one of those holds that write's data or a later one's |
| `WholeDevice.LogGrows` | firmware/nvme_driver.c:1178-1201 | over any run the log, the posted count and the returned reads only grow |
| `WholeDevice.TokensConserved` | firmware/nvme_driver.c:1401-1429 | a completed request schedules exactly one doorbell poll, an accepted one none before, a refused one none at all |
| `WholeDevice.FlushIsDurable` | firmware/nvme_driver.c:1261-1294 | started with one poll, the device takes a command only when every write the host has submitted is acknowledged and the flat content of the flash is the disk with exactly those writes applied, so a flush command that completes at once is durable |
| `WholeDevice.RefusalStopsPolling` | firmware/nvme_driver.c:1137-1141 | once a request has been refused the device never polls the doorbell again; as long as none was, exactly one poll or request is outstanding; as many are refused as the run has requests that fail the check |
| `DeviceProgress.NeverStalls` | firmware/nvme_driver.c:1067-1201 | unless idle or out of flash pages, some thread can take a step without a new command |
| `DeviceProgress.InternalStepsEnd` | firmware/nvme_driver.c:1067-1201 | every step other than the arrival of a command decreases a bounded measure |
| `DeviceProgress.ReachedAttentive` | firmware/nvme_driver.c:1401-1429 | in every reachable state a queued request is about to be looked at whenever the buffer is free |
| `DeviceProgress.ReadsGoOn` | firmware/nvme_driver.c:1401-1411 | a returned read frees the buffer for the oldest queued read if there is one, and otherwise for the oldest queued write; the queues keep their order |
| `DeviceProgress.WritesGoOn` | firmware/nvme_driver.c:1413-1418 | a finished flush frees it for the oldest queued write if there is one, and otherwise for the oldest queued read |
| `DeviceProgress.InternalRunIsShort` | firmware/nvme_driver.c:1401-1429 | without new commands a run is no longer than the measure |
| `BufferManager.Buffers.GetReadIoBuffer` | firmware/buffer_mgt_1wbc-r.c:26-41 | refused exactly while the buffer is in use; else slots in order |
| `BufferManager.Buffers.GetWriteIoBuffer` | firmware/buffer_mgt_1wbc-r.c:43-69 | refused exactly while in use; else the cache describes exactly the request |
| `BufferManager.Buffers.FreeWbcBuffer` | firmware/buffer_mgt_1wbc-r.c:99-105 | no cache entry is left valid |
| `BufferManager.FilledThenFlushed` | firmware/buffer_mgt_1wbc-r.c:43-69 | a freed and refilled cache is flushed as exactly the new write, however long the old one was |
| `BufferManager.FilledNamesPagesOnce` | firmware/buffer_mgt_1wbc-r.c:43-69 | the batch never names a host page twice, which is what larger NAND pages need |
| `WideWrites.WideReadAfterWrite` | firmware/ftl_page_mapping/unequal.pages.c:223-421 | with larger NAND pages: after any run of writes through the cache a host page reads as the last write covering it, and one no write covers as before, whatever the cache, page buffer and modify buffers held |
| `PrpList.DecodePrp` | firmware/nvme_driver.c:473-543 | succeeds if and only if every pointer and entry that the walk follows is non-null and aligned, and then yields the segments of the walk's entries in order; PrpStandard says when these are the standard's |
| `PrpList.WalkList` | firmware/nvme_driver.c:489-521 | the loop over chained list pages, with its in-place buffer, reads one flat sequence of entries: list pages are a whole page of slots from their pointer, and a last entry takes the place of a chain pointer |
| `PrpList.SegmentsCover` | firmware/nvme_driver.c:473-543 | the segments' lengths add up to the transfer size |
| `PrpList.SegmentsWithinPages` | firmware/nvme_driver.c:480-528 | every segment lies in one page; after the first each starts a page and only the last may be short |
| `PrpList.SegmentsCount` | firmware/nvme_driver.c:466-470 | n_ops is ceil(((prp1 mod page) + size) / page) for a positive size, 1 for none; it fits the 16-entry list if and only if that many pages are enough |
| `PrpStandard.DecodesAsStandard` | firmware/nvme_driver.c:473-543 | when no list is used, or it begins on a page boundary, or it ends in the memory page in which it begins, the decoder accepts exactly the data pointers that section 4.3 of NVM Express 1.1 allows and yields the segments of its layout |
| `PrpStandard.DecodesAsStandardIff` | firmware/nvme_driver.c:486-521 | for given pointers and size the decoder reads the standard's segments in every host memory in which it succeeds if and only if that condition holds |
| `PrpStandard.MisreadDiffers` | firmware/nvme_driver.c:486-521 | outside the condition there is always a host memory that the decoder accepts and reads differently |
| `PrpStandard.ListInsidePage` | firmware/nvme_driver.c:486-521 | a list pointer two slots before the end of a page: the list page itself becomes a data segment |
| `PrpStandard.EntryIsStandard` | firmware/nvme_driver.c:491-519 | from a page boundary on, entry k of the decoder's chain of list pages is entry k of the standard's layout |
| `PrpStandard.GoodIsStandard` | firmware/nvme_driver.c:494-510 | from a page boundary on, the decoder's alignment checks, chain pointers included, are those of the standard's layout |
| `HostDma.Transfers.RwIo` | firmware/host_dma.c:153-195 | the segment loop is one contiguous copy between the host's logical buffer and RAM, in both directions |
| `HostDma.Transfers.SyncDma` | firmware/host_dma.c:198-250 | a partial transfer moves exactly the requested bytes from the given segment on and resets its parameters |
| `HostDma.ReadThenWrite` | firmware/host_dma.c:168-191 | reading through a pointer and writing the result back leaves host memory unchanged |
| `HostDma.WriteThenRead` | firmware/host_dma.c:168-191 | what is written through non-overlapping segments is read back |
| `HostDma.GatherAt` | firmware/host_dma.c:168-191 | byte j of segment i is byte j of the buffer after those of the segments before it |
| `HostDma.ScatterAt` | firmware/host_dma.c:168-191 | written through non-overlapping segments every byte of the buffer lands at its place, and host memory outside the segments is unchanged |
| `HostDma.TrimIsPrefix` | firmware/host_dma.c:218-244 | a cut-off transfer is a prefix of the whole |
| `HostDma.DecodedBufferSize` | firmware/nvme_driver.c:545-551 | the buffer described by a decoded pointer has the size of the transfer |
| `CompletionRing.CompletionQueue.PostIoCcmds` | firmware/nvme_driver.c:394-452 | the posting loop ends with the pending queue empty or the ring full, in exactly the state of the specification (PostAllPostsOldest says what that is) |
| `CompletionRing.CompletionQueue.EnqueueIoCcmd` | firmware/nvme_driver.c:373-392 | queues and posts, or drops when the pending queue is full, as specified (EnqueuePostsOldest says what that is) |
| `CompletionRing.PostAllPostsOldest` | firmware/nvme_driver.c:394-452 | posting puts as many of the oldest pending requests as there is room for into the slots from the tail on, each with its own number and the phase of its lap; other slots stay, exactly those requests are freed, in order, and the rest stay pending |
| `CompletionRing.EnqueuePostsOldest` | firmware/nvme_driver.c:373-392 | the same for a completed request, which joins the end of the pending queue first, or is dropped with nothing else changed when that queue is full |
| `CompletionRing.PostAllIsRun` | firmware/nvme_driver.c:394-452 | the posting loop is a run of the protocol's steps (take, write, move the tail), once per request posted |
| `CompletionRing.EnqueueIsRun` | firmware/nvme_driver.c:373-392 | queueing a completed request is its submission followed by such a run, so that the results over interleavings hold of the queue itself |
| `CompletionRing.DoorbellIsRun` | firmware/nvme_driver.c:394-452 | and so is a doorbell of the queue: the head it brings, then such a run |
| `CompletionRing.StepKeeps` | firmware/nvme_driver.c:373-452 | tail, head, phase, slots, doorbells and pending queue keep their relation to the endless sequence of completions under every interleaving |
| `CompletionRing.PollFindsNext` | firmware/nvme_driver.c:51-58 | however late doorbells are, a host polling by phase tag sees a new entry exactly when there is one, and it is the next completion |
| `CompletionRing.NoEntryLost` | firmware/nvme_driver.c:65-68 | an entry the host has not taken is never overwritten |
| `CompletionRing.ExactlyOnce` | firmware/nvme_driver.c:394-452 | from a new queue, the requests submitted are an order-keeping merge of those accepted and those dropped; completions taken and requests freed are prefixes of the accepted ones, and of the submitted ones when nothing was dropped; each request is at exactly one place |
| `CompletionRing.RunSubmits` | firmware/nvme_driver.c:377-388 | over any run, exactly the submitted requests join the accepted or the dropped, in order |
| `CompletionRing.RingDrains` | firmware/nvme_driver.c:407-413 | once the host has taken everything and said so, posting continues |
| `CompletionRing.DroppedIff` | firmware/nvme_driver.c:377-382 | a completion is dropped if and only if as many requests as usable slots are outstanding |
| `SharedMemory.StepKeeps` | SSD_hw_platforms/gem5/extra_sim_objects/iSSDHostInterface.cc:250-427 | every interleaving of device and host accesses keeps the ring, the messages, the page register and both memories in their specified relation |
| `SharedMemory.PageRegisterExclusive` | include/host_ssd_interface.h:88-106 | the single page register is never used by both sides at once, and the host is away from it when the device resets it |
| `SharedMemory.CompleteMeansMoved` | SSD_hw_platforms/gem5/extra_sim_objects/iSSDHostInterface.cc:328-427 | COMPLETE implies that exactly this command's data has been moved, in the right direction, and nothing else |
| `SharedMemory.TransferOverRun` | SSD_hw_platforms/gem5/extra_sim_objects/iSSDHostInterface.cc:250-427 | over every interleaving from a command's issue to the next: completion is not reported before host and device memory are those at issue with exactly this command's effect, with the page register marked as used if data was moved, and all this stays so afterwards |
| `SharedMemory.HandshakeNeverSticks` | Host_hw_platforms/qemu/s4sim-qemu-host.patch:317-385 | until the command is complete one of the two sides can move |
| `SharedMemory.EveryCommandCompletes` | SSD_hw_platforms/gem5/extra_sim_objects/iSSDHostInterface.cc:250-427 | however the two sides interleave, from issue to the next issue the number of steps is bounded, and a run that cannot go on has reported completion, with exactly this command's effect on both memories |
| `TableStore.ReserveKeepsCore` | firmware/ftl_page_mapping/ftl.c:438-446 | setting a page aside for the tables keeps them consistent and takes one FREE page; totals are not adjusted |
| `TableStore.ReserveAllTakesFresh` | firmware/ftl_page_mapping/ftl.c:438-446 | the pages set aside are distinct and were FREE |
| `TableStore.SelectedAfterReserve` | firmware/ftl_page_mapping/ftl.c:140-149 | in the tables that are stored the page last selected is on the plane of the last page set aside, and the next start searches on from there |
| `TableStore.FirstMappingAfterStart` | firmware/ftl_page_mapping/ftl.c:140-149 | after a start, with room there, the first mapping takes a page of the plane after that of the last table page |
| `TableStore.TotalsDriftByStore` | firmware/ftl_page_mapping/ftl.c:442-445 | after a store of n pages the totals show n more FREE pages than there are |
| `TableStore.BlockCountersAfterStore` | firmware/ftl_page_mapping/ftl.c:442-445 | after a store the invalid counter of every block is exact, its valid counter is short, modulo 16 bits, by the pages set aside in it, and the block is counted right if and only if none was |
| `TableStore.ChunkFitsOperation` | firmware/ftl_page_mapping/ftl.c:546-567 | a 64 KB chunk fits a 128-page operation if and only if a page has at least 512 bytes |
| `TableStore.ConfigRoundTrip` | firmware/ftl_page_mapping/ftl.h:8-26 | the bytes of the configuration record determine it |
| `TableStore.StoreThenRestore` | firmware/ftl_page_mapping/ftl.c:416-602 | restoring after a store gives back exactly the stored section and configuration when the table pages are distinct and those used are not header pages |
| `TableStore.RestoresIff` | firmware/ftl_page_mapping/ftl.c:448-599 | for distinct table pages and any buffer, the section of every content comes back if and only if none of the table pages used is a header page |
| `TableStore.FirstStoreOnHeader` | firmware/ftl_page_mapping/ftl.c:438-497 | on a new single-plane medium with the one page the source reserves, the first table page is header page 1, so the record overwrites it and the restore reads back a piece of the record |
| `TableStore.ReserveAllAvoidsHeader` | firmware/ftl_page_mapping/ftl.c:438-446 | with all three header pages reserved the pages set aside are distinct, none is a header page, and the header stays reserved |
| `TableStore.ContentAfterStore` | firmware/ftl_page_mapping/ftl.c:485-497 | across a shutdown every logical page reads as before, unless it sits on one of the three header pages |
| `TableStore.ReservedHeaderIsSafe` | firmware/ftl_page_mapping/ftl.c:485-497 | with all three header pages reserved no logical page is on one, and neither a mapping nor setting a page aside takes one |
| `TableStore.NewMediaReservesHeader` | firmware/ftl_page_mapping/ftl.c:99-109 | a new medium has that property if and only if at least three pages are reserved |
| `TableStore.FirstWriteOnHeader` | firmware/ftl_page_mapping/ftl.c:100-109 | with one reserved page, as in the source, the first write on a single-plane medium lands on a header page |
| `TableStore.AllocateTablePages` | firmware/ftl_page_mapping/ftl.c:438-446 | the allocation loop as specified |
| `TableStore.WriteTables` | firmware/ftl_page_mapping/ftl.c:448-483 | the page-at-a-time writer, short last page included, programs page i of the section on page i of the list |
| `TableStore.WriteHeader` | firmware/ftl_page_mapping/ftl.c:485-497 | the record goes to pages 0 to 2 in one operation |
| `TableStore.ReadHeader` | firmware/ftl_page_mapping/ftl.c:518-532 | the record comes back from pages 0 to 2 |
| `TableStore.ReadTables` | firmware/ftl_page_mapping/ftl.c:539-599 | the chunked loader consumes the page list in order and yields the first bytes of its pages |
| `TableLifetime.ShutdownThenStart` | firmware/ftl_page_mapping/ftl.c:416-602 | from consistent tables with the header reserved: setting pages aside, writing section and record, and restoring from the flash alone give back both |
| `TableLifetime.NextKeeps` | firmware/ftl_page_mapping/ftl.c:416-614 | every flush, and every shutdown with the next start, keeps the medium sound and its header reserved, changes the flat disk by exactly what the host wrote, takes distinct FREE pages, bytes / pageSize + 1 for a section, and programs those it writes, page by page with the data written, the header apart |
| `TableLifetime.LifeRefines` | firmware/ftl_page_mapping/ftl.c:416-614 | over any run of flushes, shutdowns and starts from a medium with its header reserved: the disk is exactly what the host wrote; the pages used up are distinct, were FREE and are as many as the writes and sections need; those written hold their data in order; and apart from the header every other flash page is as before |

## Left out

- FlashTranslation.Ftl.ScanFrom: the block index wraps at the last block (`>=`), where firmware/ftl_page_mapping/ftl.c:195 compares with `>`; MappingTables.WrapAsWrittenInRangeIff says exactly when the two agree.
- FlashTranslation.Ftl.GetFreePpa: needs a FREE page, since the source has no garbage collection and would search for ever; the loop-limit message changes nothing and is omitted.
- MappingTables.Conservation: totals are unbounded integers; the source's are 32 bits wide and bounded by the number of pages.
- MappingTables.MakeMappingKeepsCounts: holds until a store, which decrements the valid counters of the blocks whose pages it sets aside (TableStore.BlockCountersAfterStore) and leaves the totals as they were.
- EqualPages.RunFromNewMedia: reads are not events of the run, because EqualPages.EqualFtl.ReadPages shows that they change nothing.
- UnequalPages.FlushRefines: a host page never written, in a NAND page that is partly written for the first time, has stale bytes; nothing is claimed about it beyond UnequalPages.FlushContent.
- UnequalPages.UnequalFtl.ReadPages: __sync_read_pages is the same loop but gives up at the first unmapped NAND page; only the request form is modelled.
- UnequalPages.UnequalFtl.SyncProgramPages: needs at most 16 NAND pages, the size of the arrays in the source.
- NandSerialisation.Serialisable: the effect of a DMA transfer on RAM and page register is placed at its completion, and the register writes of one command are one push; the initial DMA toggle is arbitrary.
- NandController.OpCompleteKeeps: erase commands are not modelled; the firmware never issues them.
- Rings.SimpleFifo.Push: says nothing of the contents once more than 1024 pushes are unanswered; NandPushes.FifoFits shows that no operation comes near that.
- Rings.OpPool.Malloc: needs an idle operation, which the source does not test for. The driver's operations are modelled with a pool filled like that of the read operations; Rings.ProgramOpIsNullIff says what the program operations get.
- Rings.BufferQueue.Pop: needs a queued request, which both callers test.
- WholeDevice.ReadAfterWrite: the interleaved machine uses the translation layer for equal page sizes; over larger NAND pages WideWrites.WideReadAfterWrite covers writes one after another. Host memory is the data given with a write and the pages collected by a read; commands may arrive whenever a doorbell poll is scheduled, in any number.
- WholeDevice.StepKeeps: a command whose range check passes only because the sum wraps is not an event: its pages index the mapping table out of range. The namespace number is taken to be valid.
- DeviceProgress.NeverStalls: assumes a free flash page for every page of a waiting flush.
- PrpList.DecodePrp: host memory is a function from addresses to 64-bit words that does not change during the walk; a page holds at least two list entries; do_sync_dma and the request paths ignore the result of a failed decoding. PrpStandard takes the list pointer to be qword aligned, as the standard does.
- HostDma.Transfers.RwIo: register writes and the polling of one segment are one copy; SharedMemory models them.
- CompletionRing.StepKeeps: one queue; the interrupt and the other fields of an entry are left out.
- SharedMemory.StepKeeps: accesses are sequentially consistent, the host does not change the memory of a transfer under way, and the filling of one message's registers is one step.
- TableStore.ReadTables: needs pages of at least 512 bytes, three pages large enough for the configuration record, and a page list long enough, as the array of 1224 entries is for supported media.
- TableLifetime.LifeRefines: the table section is a byte string, and the function that reads tables from it and the record is a parameter; its layout is not modelled. Pages of one host page each. The choice between new and stored media by the first word of page 0 is not part of this model.
- In-storage processing, admin commands, identify data, feature values and firmware download: field filling and calls into foreign code.
- Context switching, boot and the kernel's scheduling: threads are atomic between the steps of the state machines.
- The buffer manager with several write-back caches, the debug copy of the NAND driver, printing, statistics and event logs.
- Latencies, simulator ports and interrupts: events come in any order.
- The generators of initial tables: only the contents they produce (everything unmapped and FREE).

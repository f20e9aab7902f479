# A model of hvisor, with proofs

hvisor is a static-partitioning type-1 hypervisor: it gives each zone (guest) a fixed set of CPUs, memory and interrupts.
This project states in Dafny what the hard parts of hvisor do and proves what they guarantee, for every input, every
reachable state and every interleaving.  `dafny verify dfyconfig.toml` checks everything.

| file | what it models |
|---|---|
| `Stage2Entry.dfy` | the VMSAv8-64 stage 2 descriptor as a 64-bit word |
| `Stage2Walk.dfy` | the memory management unit's walk of the tables, over memory alone |
| `PageTree.dfy`, `PageTable.dfy` | the 3/4-level table tree, and the class that walks, creates, maps and unmaps in it |
| `Region.dfy`, `Mapping.dfy` | memory regions, the offset mapper, and `map`/`unmap` of whole regions with 4K/2M/1G pages |
| `MapFate.dfy` | how `map` of a region ends, in closed form |
| `MemorySet.dfy` | the region list beside the page table that must agree with it |
| `Ivc.dfy` | shared-memory windows between zones, on top of the memory sets |
| `PlicSpec.dfy`, `VirtualPlic.dfy` | the virtual PLIC as a transition function, and as the class that changes in place |
| `PlicMap.dfy` | the memory map of the virtual PLIC, address by address, and the lines context by context |
| `PlicWakeup.dfy`, `PlicEnable.dfy`, `PlicRuns.dfy`, `PlicQueue.dfy`, `PlicLost.dfy` | no lost wake-up: what each step keeps, writes of enable words, whole runs, events queued inside an operation, and runs that do lose one |
| `PlicHost.dfy` | what the virtual PLIC and the reset of a zone write to the host PLIC |
| `PlicClaims.dfy` | the claim discipline over all runs of a zone's CPUs |
| `GicInjection.dfy` | GICv3 list registers, overflow queue and maintenance interrupt of one CPU |
| `Distributor.dfy` | restricted access of zones to the GICv2 distributor |
| `Handoff.dfy`, `HandoffOff.dfy` | virtio interrupts from the root zone to the other CPUs, and what PSCI SYSTEM_OFF does to them |
| `HandoffEffects.dfy` | each response, injection event and shutdown of the hand-off with its whole effect |
| `RequestRing.dfy` | the virtio request ring |
| `Zones.dfy` | zone start, shutdown and PSCI SYSTEM_OFF |
| `ZoneCalls.dfy` | the exact outcome and effect of start and shutdown over the state before the call |
| `Boot.dfy` | the SMP boot of `rust_main` |
| `CommandQueue.dfy` | the SMMUv3 command queue |
| `Options.dfy` | the option type |

How things are modelled.  Objects that the source updates in place are classes whose methods are proved against a value
level (`Value()`, `S()`, `leaves`); the theorems over whole runs are about that value level.  Code that several CPUs, a
device or a backend run at once is a state machine in which each lock, atomic access or shared read is a step of its own,
and a schedule is any sequence of steps.  There are two exceptions.  An operation of the virtual PLIC runs under its lock
and is one step, while taking an event from a queue and handling it are two; that another CPU may take or queue an event in
the middle of an operation makes no difference (`PlicSpec.FetchPastUpdate`, `RefreshAhead`, `WriteAhead`,
`PlicQueue.QueueInRefresh`, `QueueInWrite`).  And zone calls are one step each.  Panics, failed assertions and endless loops are explicit outcomes or states, so that their absence is a
theorem and not a precondition.  Sets stand for bit sets, natural numbers with explicit division and remainder for machine
words.  The frame allocator is a given supply of distinct aligned frames that can run dry; the values of power flags,
device registers, responses and backend steps are arbitrary inputs.

Where the code and its own comments or intentions differ, the model follows the code, and the difference is stated exactly:

- `VirtioHandoff.StepDies`, `PanicExact`: the limit is named four devices per VM and a list has four places, but
  `assert!(len + 1 < MAX_DEVS)` already fails for the fourth.  Everything else about the lists holds for any number.
- `VirtioHandoff.ShutdownReached`: a shutdown keeps two locks while it waits, so a CPU takes its shutdown event exactly when
  it runs its guest or is in a trap that does not need the zone's lock any more; `ShutdownMeetsHandler`, `ShutdownMeetsTrap`
  are runs from the initial state that block.
- `HandoffOff.OffExact`, `RunUnheard`, `OffLoses`: SYSTEM_OFF discards queued injections and keeps the lists, after which a
  listed interrupt is not injected until another one is listed or the zone is shut down.
- `PlicWakeup.CompletionExact`, `HardwareInjectExact`, `HardwarePriorityExact`, `PlicEnable.EnableExact`: the steps after
  which a wake-up can be lost, with the condition on the vPLIC that a caller can check before the step.  `PlicLost` has a
  run from a new vPLIC for each of them.
- `PlicHost.StepMirrorsExact`, `RunMirrorsExact`, `OnAndOff`, `LosesMirror`: the enables of the host PLIC are to follow the
  virtual ones, but `set_enable_num` never clears a bit: an enable word that switches a hardware interrupt off leaves it on in
  the host PLIC.  The reset of a zone cannot clear it either, so a second zone on the same CPUs and interrupts does not start
  with nothing enabled (`SecondZoneExact`).
- `PlicSpec.ContextsExact`: a configuration that names a CPU twice gives a vPLIC contexts that belong to no CPU.
- `Zones.ShutdownKeeps`, `SystemOffExact`, `TrapLosesLock`, `LostForever`: `remove_zone` asserts that nobody else refers to
  the zone, but an MMIO trap on another CPU holds a clone of the reference; the panic keeps the lock of the zone list, after
  which every zone call waits for ever.
- `Zones.OrphanExact`, `OrphanStepExact`, `OrphanStays`: a start refused with EBUSY leaves a zone in no list that keeps its
  CPUs; only a SYSTEM_OFF by one of them frees them, and that call panics.
- `GicInjection.MaintainGrowsExact`, `OneRegisterGrows`, `WordDecodes`: when the overflow queue grows, and which
  interrupt ids a list register can hold.
- `Distributor.LastRegistersPanic`: the register ranges leave out the last register of each bank, where an access ends in
  `todo!()`.
- `Boot.PanicExact`: a machine on which all CPUs report a 52-bit address range panics in early initialisation.
- `Ivc.FramesCoverExact`, `JoinedShare`: the 32-bit window size and the unchecked peer ids.
- `MapFate.FateExact`: an insert into a table without leftovers can still fail with EFAULT, because emptied tables are kept
  and block huge pages; exactly when, and exactly when frames run out.
- `MemorySets.ExactWhenAligned`: translation is exact only for a page-aligned host start, which `insert` does not check.
- `PageTables.SeenAlike`, `Regions.FitsExact`: addresses beyond what tables and entries can hold are not refused, they alias
  lower ones.

## Model

| member | source | states |
|---|---|---|
| Stage2Entry.LeafDecodes | src/arch/aarch64/s2pt.rs:105-171 | for every flag set and page size the word left by `set_addr` and `set_flags` is non-zero, present, huge exactly for blocks, and decodes to the same aligned address and the READ/WRITE/IO flags, so the memory type panic is out of reach |
| Stage2Entry.TableDecodes | src/arch/aarch64/s2pt.rs:173-179 | a table entry is non-zero, present, not huge, and decodes to the frame it was given |
| Stage2Entry.BuiltWord | src/arch/aarch64/s2pt.rs:195-199 | attribute bits and address field of a built word do not disturb each other, in both directions |
| Stage2Entry.OnlyLowBits | src/arch/aarch64/s2pt.rs:105-171 | an entry keeps the low 48 bits of the address it is given: addresses equal in them give the same word |
| Stage2Entry.LeafIsDescriptor | src/arch/aarch64/s2pt.rs:105-171 | for every flag set and page size the stored word is, number by number, the stage 2 descriptor of the architecture: bit 0, bit 1 for pages, bits 2..5 1 or 15, bit 6 for READ, bit 7 for WRITE, bits 8 and 9 for normal memory, bit 10, and the address |
| Stage2Entry.TableIsDescriptor | src/arch/aarch64/s2pt.rs:173-179 | the word of a table reference is the address plus the literal attribute bits |
| PageTree.WalkEnd | src/arch/aarch64/paging.rs:163-186 | a walk that stops at a slot without a table below has found the only slot that could hold a leaf over the address |
| PageTree.LeavesApart | src/arch/aarch64/paging.rs:163-186 | in a well-formed tree at most one leaf covers an address, whatever its size |
| PageTree.MapLeaf | src/arch/aarch64/paging.rs:353-359 | writing a leaf into an unused slot keeps the whole tree well formed and adds exactly that leaf |
| PageTree.UnmapLeaf | src/arch/aarch64/paging.rs:362-370 | clearing a leaf keeps the tree well formed and removes exactly that leaf |
| PageTree.TableAdded | src/arch/aarch64/paging.rs:590-601 | hanging a fresh zeroed frame into an unused slot keeps the tree well formed and changes no leaf |
| PageTables.ReachedOnce | src/arch/aarch64/paging.rs:312-317 | every tracked table frame is referred to by exactly one entry of the tree |
| PageTables.ReachedIsTracked | src/arch/aarch64/paging.rs:312-317 | every used entry that is no leaf refers to a table frame in `intrm_tables` |
| PageTables.SeenAlike | src/arch/aarch64/paging.rs:554-568 | the masked indices of an address are those of its remainder by the table's range, so every address is looked up as one inside the range |
| PageTables.PageTable.constructor | src/arch/aarch64/paging.rs:154-161 | a new table maps nothing and satisfies the tree invariant |
| PageTables.PageTable.NextTableMut | src/arch/aarch64/paging.rs:580-588 | reaches the sub-table for the address, or reports that nothing covers it or that a block is in the way |
| PageTables.PageTable.GetEntryMut | src/arch/aarch64/paging.rs:163-186 | for every address, masked as the indices are, ends at the one slot that decides it; an error means that no leaf covers it |
| PageTables.PageTable.Query | src/arch/aarch64/paging.rs:258-265 | for every address answers with the one leaf over the masked address (address plus offset, flags, size), and NotMapped exactly when there is none |
| PageTables.PageTable.UnmapPage | src/arch/aarch64/paging.rs:362-370 | for every address removes the one leaf over the masked address and no other, fails exactly when there is none, and keeps the tree invariant |
| PageTables.PageTable.NextTableMutOrCreate | src/arch/aarch64/paging.rs:590-601 | creates a missing sub-table without touching a leaf or another table; on NoMemory the supply is empty |
| PageTables.PageTable.GetEntryMutOrCreate | src/arch/aarch64/paging.rs:321-345 | on every exit, failing ones included, no leaf has changed, no table has moved, and the tree invariant holds |
| PageTables.PageTable.MapPage | src/arch/aarch64/paging.rs:347-360 | for every pair of addresses adds exactly one leaf with the aligned address (its low 48 bits) and kept flags, stored as the literal descriptor (`Valid` holds of the memory), or changes no leaf and names the reason |
| Stage2Walk.LeafTranslates | src/arch/aarch64/s2pt.rs:157-171 | a leaf's word is read by the hardware as a page or block with the leaf's address, permissions, memory type and shareability, access flag set |
| Stage2Walk.TableLeadsOn | src/arch/aarch64/s2pt.rs:173-179 | a table's word leads the hardware on to its frame |
| Stage2Walk.MmuAgrees | src/arch/aarch64/paging.rs:163-186 | in every state of a page table the hardware's walk over memory, written with literal bits, translates every guest address as the one leaf over it says, and faults exactly when there is none |
| Regions.MapFnShifts | src/memory/mapper.rs:35-40 | the wrapping offset acts as a plain displacement inside a region, whichever side is higher |
| Regions.FitsExact | src/memory/mapper.rs:35-40 | a region lies within the ranges that the model of regions assumes if and only if the table tells each of its addresses apart and an entry can hold the host address |
| Regions.NewWithOffsetMapper | src/memory/mapper.rs:50-66 | the mapper sends the region's start to the given host address |
| Regions.ChooseInPages | src/arch/aarch64/paging.rs:476-490 | the byte-level page size choice of `map` is the choice of the page-level plan |
| Regions.PlanInside | src/arch/aarch64/paging.rs:472-503 | every leaf that `map` plans lies inside the region |
| Regions.PlanCovers | src/arch/aarch64/paging.rs:472-503 | every page of the region is under a planned leaf at the right distance, whatever mix of sizes is chosen |
| Regions.MappedLeaf | src/arch/aarch64/paging.rs:459-505 | over each address of a mapped region lies one leaf, at the region's own distance and with its flags |
| Regions.BackingInPage | src/arch/aarch64/paging.rs:258-265 | that leaf's address plus the offset in its page is the byte the region's displacement gives |
| Mapping.MapNext | src/arch/aarch64/paging.rs:474-503 | one round maps the planned page, or changes no leaf and names the reason |
| Mapping.MapRegion | src/arch/aarch64/paging.rs:459-505 | success maps exactly the plan of the region; a failure keeps every older leaf, adds only planned ones, and has one of three causes; over pages that no leaf covers the outcome is a function of the tables there are and the frames left |
| MapFate.PageIsItem | src/arch/aarch64/paging.rs:321-359 | mapping one uncovered page takes one frame for each missing table on its path, fails for want of frames exactly when there are fewer, and otherwise exactly when a table sits where its block would go |
| MapFate.FateExact | src/arch/aarch64/paging.rs:459-505 | mapping a clear region fails with ENOMEM if and only if it needs more new tables than there are frames, otherwise with EFAULT if and only if some planned block had a table in its place from the start, and otherwise succeeds |
| Mapping.UnmapRound | src/arch/aarch64/paging.rs:516-529 | on a mapped region the next unmap meets exactly the page size that `map` chose |
| Mapping.UnmapRegion | src/arch/aarch64/paging.rs:507-531 | on a mapped region the spin loop and both assertions are out of reach and exactly the region's leaves go; on any region no leaf is added or changed |
| MemorySets.NeighboursSuffice | src/memory/mm.rs:96-108 | for any disjoint regions, aligned or not, testing the nearest one on each side is equivalent to testing overlap with all |
| MemorySets.LastBelow | src/memory/mm.rs:97-97 | finds the region with the greatest start below the new one |
| MemorySets.FirstFrom | src/memory/mm.rs:102-102 | finds the region with the least start at or above the new one |
| MemorySets.TestFreeArea | src/memory/mm.rs:96-108 | true exactly when no recorded region overlaps |
| MemorySets.InsertedAgrees | src/memory/mm.rs:125-126 | after a successful insert the list with the new region agrees with the leaves again |
| MemorySets.FailedInsertAgrees | src/memory/mm.rs:125-125 | after an insert that failed part way every recorded region is still fully and correctly mapped |
| MemorySets.DeletedAgrees | src/memory/mm.rs:131-135 | without a region's leaves the other regions are still disjoint and fully mapped |
| MemorySets.PlansApart | src/memory/mm.rs:60-66 | regions that do not overlap never share a leaf |
| MemorySets.NoRegionNoLeaf | src/memory/mm.rs:158-163 | outside the recorded regions nothing is mapped, up to pages of failed inserts |
| MemorySets.RefusedByTable | src/memory/mm.rs:118-125 | without such pages, no leaf is in the way of a region that passes the overlap test |
| MemorySets.MemorySet.constructor | src/memory/mm.rs:73-83 | an empty set with an empty table |
| MemorySets.MemorySet.Insert | src/memory/mm.rs:111-128 | the exact outcome (panic on misalignment, EINVAL exactly on overlap; without leftovers of failed inserts ENOMEM, EFAULT and success exactly as `FateExact` says), the new region list, and agreement with the page table in every case |
| MemorySets.MemorySet.Delete | src/memory/mm.rs:131-145 | always succeeds on a recorded region, removes its leaves and no others, keeps agreement |
| MemorySets.MemorySet.Clear | src/memory/mm.rs:147-152 | the `unwrap` never panics, and no region is left |
| MemorySets.MemorySet.PageTableQuery | src/memory/mm.rs:158-163 | for every address: inside a recorded region the region's own address and flags; elsewhere NotMapped, up to pages of failed inserts |
| MemorySets.MmuTranslates | src/memory/mm.rs:111-128 | for every address, by the hardware's walk: in a recorded region the region's own byte with its permissions and memory type; elsewhere a fault, up to pages of failed inserts |
| MemorySets.Apply | src/memory/mm.rs:111-152 | each operation changes the region list as its plain replay says and keeps agreement |
| MemorySets.Run | src/memory/mm.rs:111-152 | any run of operations: the region list is the plain replay, the tables agree with it, and without a failed insert nothing else is mapped |
| MemorySets.ExactWhenAligned | src/arch/aarch64/paging.rs:353-359 | translation is start plus distance if and only if the host start is page aligned |
| Ivc.InsertSection | src/ivc.rs:174-195 | one section is recorded without touching another region, or nothing is recorded |
| Ivc.MapWindow | src/ivc.rs:171-196 | when no `unwrap` panics every section of the window is a recorded region, and no older region is lost |
| Ivc.WindowBacked | src/ivc.rs:174-195 | every offset of the window is backed by the frame byte at that offset, writable exactly in the common and the own output section |
| Ivc.QueryWindow | src/ivc.rs:174-195 | the same through the zone's page tables |
| Ivc.IvcRecords.InsertIvcRecord | src/ivc.rs:77-127 | over the attempts so far: let in exactly when `LetIn` says so of the attempt (no earlier one let in and both sections aligned; or the sizes agree with the first one let in and the number of peer ids let in is not `max_peers`), and the record then is what `RecordExact` says |
| Ivc.RecordExact | src/ivc.rs:77-127 | in every run an id has a record exactly when an attempt was let in; its peers are exactly the peer ids let in, its sizes those of all of them, and its frames those of the first |
| Ivc.JoinExact | src/ivc.rs:77-127 | attempt `k` of any run is let in exactly as `LetIn` says over the attempts before it, and gets the frames of the first one let in |
| Ivc.JoinWindow | src/ivc.rs:163-196 | one round of `ivc_init`: the record's answer, and when no `unwrap` panics the zone has joined with its whole window mapped |
| Ivc.JoinAligned | src/ivc.rs:77-127 | frames and sections of every zone that was let in are page aligned, although only the record's creator is checked |
| Ivc.AnswerStays | src/ivc.rs:77-127 | what a zone was told when it joined stays true of the record in every later state |
| Ivc.JoinedShare | src/ivc.rs:77-127 | all zones that joined an id have the same frames and sections, and two of them can write one output section exactly when both gave its peer id |
| Ivc.StaysJoined | src/ivc.rs:77-196 | later joins and later regions take nothing away from a zone that has joined |
| Ivc.SharedByte | src/ivc.rs:77-196 | two zones that joined one id, in any run, reach through their own page tables the same physical byte at every offset; both read it, both write the common section, and an output section is writable exactly for the zones that gave its peer id, so with distinct ids for at most one of them |
| Ivc.SharedMmu | src/ivc.rs:77-196 | the same by the hardware's walk of both zones' tables: one byte, normal memory, read by both, with exact write permissions |
| Ivc.FramesCoverExact | src/ivc.rs:144-152 | the allocated frames hold the window if and only if the 32-bit size sum does not overflow |
| Ivc.OutOffsetIs | src/ivc.rs:189-193 | the section offsets are the closed form that the source computes |
| PlicSpec.Scan | src/device/irqchip/plic/vplic.rs:370-382 | the search loop holds the lowest-numbered deliverable interrupt of greatest priority so far |
| PlicSpec.NextPendingIsBest | src/device/irqchip/plic/vplic.rs:370-388 | the search returns the lowest-numbered candidate of greatest priority above the threshold, and 0 exactly when there is none |
| PlicSpec.WordShowsBits | src/device/irqchip/plic/vplic.rs:185-197 | a register word shows exactly the bits of its interrupts |
| PlicSpec.OwnContext | src/device/irqchip/plic/mod.rs:99-119 | the context of a CPU of the zone leads back to that CPU |
| PlicSpec.ContextsExact | src/zone.rs:242-264 | there are two contexts for each CPU of the zone, and every context belongs to a CPU, if and only if no CPU is configured twice |
| PlicSpec.FetchPastUpdate | src/device/irqchip/plic/vplic.rs:391-416 | another CPU's fetch of an event and a line update commute |
| PlicSpec.RefreshAhead | src/device/irqchip/plic/vplic.rs:100-110 | a fetch anywhere inside the loop over the contexts has the effect of a fetch after it |
| PlicSpec.WriteAhead | src/device/irqchip/plic/vplic.rs:215-234 | and so has a fetch between two rounds of an enable write |
| PlicQueue.QueueInRefresh | src/device/irqchip/plic/vplic.rs:100-110 | an event that others queue anywhere inside the loop over the contexts changes nothing but the order in its queue, and loses no wake-up that the loop as one step does not lose |
| PlicQueue.QueueInWrite | src/device/irqchip/plic/vplic.rs:215-234 | the same between two rounds of an enable write |
| PlicMap.PriorityAt | src/device/irqchip/plic/vplic.rs:145-178 | the priority of interrupt `i` is at 4i: a read shows it, a write changes it and no other, and number 0 or one beyond the last does nothing |
| PlicMap.PriorityReadBack | src/device/irqchip/plic/vplic.rs:145-178 | a written priority is read back by every CPU, for software and hardware interrupts |
| PlicMap.PriorityLines | src/device/irqchip/plic/vplic.rs:158-174 | a priority write updates, context by context, the lines of those that have a software interrupt enabled, and no line otherwise |
| PlicMap.PendingAt | src/device/irqchip/plic/vplic.rs:180-199 | pending bits of interrupts 32w to 32w + 31 are at 0x1000 + 4w, read only |
| PlicMap.EnableRead | src/device/irqchip/plic/vplic.rs:236-240 | enable bits of context `c` are read at 0x2000 + 0x80c + 4w |
| PlicMap.EnableWritten | src/device/irqchip/plic/vplic.rs:214-234 | a write there sets exactly those bits of that context to the written ones |
| PlicMap.ThresholdAt | src/device/irqchip/plic/vplic.rs:244-267 | the threshold of context `c` is at 0x200000 + 0x1000c: reads, writes, and the line update that follows |
| PlicMap.ClaimAt | src/device/irqchip/plic/vplic.rs:289-298 | a read of 0x200004 + 0x1000c claims for context `c`: the best candidate or 0 exactly when there is none, which becomes active and not pending |
| PlicMap.CompleteAt | src/device/irqchip/plic/vplic.rs:277-288 | a write there completes, or panics for an unknown number |
| PlicMap.NothingElse | src/device/irqchip/plic/vplic.rs:131-139 | every other access, unaligned, too wide or outside the map, does nothing and reads 0 |
| PlicMap.NoSuchContext | src/device/irqchip/plic/vplic.rs:251-255 | and so do registers of M-mode contexts and of contexts that do not exist |
| PlicMap.RefreshIs | src/device/irqchip/plic/vplic.rs:100-110 | the loop updates exactly the S-mode contexts that have the interrupt enabled and, for an injection, a threshold below its priority |
| PlicMap.InjectIs | src/device/irqchip/plic/vplic.rs:87-113 | an injection panics, is ignored or makes the interrupt pending, each exactly when, and what each context's line and event queue then are |
| PlicMap.HandleIs | src/device/irqchip/plic/mod.rs:140-152 | handling an update event sets the CPU's own line to whether something can be delivered to its own context, and touches no other |
| PlicWakeup.SoftwareInjectKeeps | src/device/irqchip/plic/vplic.rs:87-113 | injecting a software interrupt loses no wake-up |
| PlicWakeup.SoftwarePriorityKeeps | src/device/irqchip/plic/vplic.rs:158-174 | neither does changing a software interrupt's priority |
| PlicWakeup.ThresholdKeeps | src/device/irqchip/plic/vplic.rs:257-263 | nor writing a threshold |
| PlicWakeup.ClaimKeeps | src/device/irqchip/plic/vplic.rs:289-298 | nor a claim |
| PlicWakeup.FetchKeeps | src/event.rs:66-74 | nor taking an event from a CPU's queue, after which its handler is on the way |
| PlicWakeup.HandleKeeps | src/device/irqchip/plic/mod.rs:140-152 | nor the update of the line that the handler then makes, whatever happened in between |
| PlicWakeup.CompletionExact | src/device/irqchip/plic/vplic.rs:277-288 | a completion loses no wake-up in any machine with this vPLIC state if and only if no other context holds the interrupt back |
| PlicWakeup.HardwareInjectExact | src/device/irqchip/plic/vplic.rs:94-98 | the same if-and-only-if for hardware injections |
| PlicWakeup.HardwarePriorityExact | src/device/irqchip/plic/vplic.rs:159-163 | and for priority writes of hardware interrupts |
| PlicEnable.EnableKeeps | src/device/irqchip/plic/vplic.rs:214-234 | writing an enable word loses no wake-up when an event is on its way anyway, or the last update of the loop already offers something to the context that is given a pending hardware interrupt |
| PlicEnable.EnableExact | src/device/irqchip/plic/vplic.rs:214-234 | and that condition is exact: without it some machine with this vPLIC state loses one |
| PlicLost.LostThroughOtherContext | src/device/irqchip/plic/vplic.rs:277-288 | a run from a new vPLIC, with software interrupts of one owner each, that loses no wake-up until its last step, a completion through another context, loses one |
| PlicLost.LostBetweenTwoOwners | src/device/irqchip/plic/vplic.rs:277-288 | the same with two contexts that have the interrupt enabled and complete only their own claims; the last step is a completion |
| PlicLost.LostHardware | src/device/irqchip/plic/vplic.rs:214-234 | the same with a hardware interrupt; the last step is the write of an enable word that enables it while it is pending |
| PlicLost.LostByInjection | src/device/irqchip/plic/vplic.rs:94-98 | the same with a hardware interrupt enabled in two contexts; the last step is its injection, which tells only one |
| PlicLost.LostByPriority | src/device/irqchip/plic/vplic.rs:158-163 | the same with a pending hardware interrupt; the last step is the write of its priority |
| PlicRuns.NewPlicWaitsForNothing | src/device/irqchip/plic/vplic.rs:54-72 | a new vPLIC satisfies the invariant |
| PlicRuns.StepKeeps | src/device/irqchip/plic/vplic.rs:87-305 | under the stated discipline every step of every CPU keeps: a context with a candidate has its line set, an update event queued, or its handler on the way |
| PlicRuns.RunKeepsWakeups | src/device/irqchip/plic/vplic.rs:87-305 | no lost wake-up in any state of any interleaving, fetching and handling an event being two steps |
| PlicHost.WriteEnableBits | src/device/irqchip/plic/plic.rs:139-146 | the enable loop adds to the host PLIC exactly the newly set bits of the word's hardware interrupts, at the context of the CPU behind the virtual one, and clears none |
| PlicHost.StepServes | src/device/irqchip/plic/vplic.rs:121-305 | every step keeps priorities and thresholds of the host PLIC equal to the virtual ones for the zone's hardware interrupts and contexts; its enables become what was enabled and what the guest has enabled now |
| PlicHost.StepMirrorsExact | src/device/irqchip/plic/vplic.rs:215-230 | a step keeps the enables equal as well if and only if it is not an enable word that switches a hardware interrupt off |
| PlicHost.RunServes | src/device/irqchip/plic/vplic.rs:121-305 | in every run priorities and thresholds are equal, and the host PLIC has enabled whatever the guest has |
| PlicHost.RunGathers | src/device/irqchip/plic/plic.rs:139-146 | after every run the host PLIC has enabled exactly what was enabled before and what the guest has ever enabled |
| PlicHost.RunMirrorsExact | src/device/irqchip/plic/plic.rs:139-146 | the enables are equal after a run if and only if everything that was ever enabled is enabled |
| PlicHost.FromNew | src/device/irqchip/plic/vplic.rs:54-72 | a new vPLIC is equal to a host PLIC with nothing set for the zone, and the two statements hold of every run from there |
| PlicHost.OnAndOff | src/device/irqchip/plic/vplic.rs:215-230 | from every state with equal enables, enabling a hardware interrupt and disabling it leaves it enabled in the host PLIC |
| PlicHost.LosesMirror | src/device/irqchip/plic/vplic.rs:215-230 | so does a run of a new zone |
| PlicHost.SecondZoneExact | src/device/irqchip/plic/mod.rs:155-192 | after the reset of a zone, a new zone with the same CPUs and hardware interrupts starts with equal enables if and only if the first one never enabled any; priorities and thresholds are equal in any case |
| PlicHost.RunApart | src/device/irqchip/plic/vplic.rs:121-305 | no run changes the host PLIC's registers of interrupts that are not the zone's or of contexts of other CPUs, and every completion it forwards is of an own interrupt at an own context |
| PlicClaims.ClaimReturnsBest | src/device/irqchip/plic/vplic.rs:289-298 | a claim returns the best candidate of its context, or 0 exactly when there is none |
| PlicClaims.StepBits | src/device/irqchip/plic/vplic.rs:87-305 | exactly which steps set and clear the pending and active bits |
| PlicClaims.InjectionsAreClaimed | src/device/irqchip/plic/vplic.rs:94-96 | over any run accepted injections equal claims plus the change of the pending bit |
| PlicClaims.StaysActive | src/device/irqchip/plic/vplic.rs:284-293 | an interrupt that is not completed stays active |
| PlicClaims.ClaimsAlternate | src/device/irqchip/plic/vplic.rs:284-293 | between two claims of an interrupt there is a completion |
| VirtualPlics.VirtualPlic.GetNextPending | src/device/irqchip/plic/vplic.rs:370-388 | the loop computes the specified search |
| VirtualPlics.VirtualPlic.UpdateHartLine | src/device/irqchip/plic/vplic.rs:391-416 | sets or clears the own line, or queues an event, as specified |
| VirtualPlics.VirtualPlic.RefreshLines | src/device/irqchip/plic/vplic.rs:100-110 | the loop over the contexts refines the specification |
| VirtualPlics.VirtualPlic.InjectIrq | src/device/irqchip/plic/vplic.rs:87-113 | injection refines the specification, panics included |
| VirtualPlics.VirtualPlic.WriteEnableWord | src/device/irqchip/plic/vplic.rs:215-234 | the enable loop refines the specification, its writes to the host PLIC included |
| VirtualPlics.VirtualPlic.ReadWord | src/device/irqchip/plic/vplic.rs:191-197 | the read loop computes the register word |
| VirtualPlics.VirtualPlic.EmulAccess | src/device/irqchip/plic/vplic.rs:121-305 | the whole MMIO dispatch refines the specification, whose register map `PlicMap` gives by literal addresses, with its writes to the host PLIC and a panic exactly where the specification has one |
| VirtualPlics.VirtualPlic.PcontextToVcontext | src/device/irqchip/plic/mod.rs:99-119 | the loop finds the CPU's own context |
| VirtualPlics.VirtualPlic.FetchEvent | src/event.rs:66-74 | taking an event refines the specification |
| VirtualPlics.VirtualPlic.HandleUpdate | src/device/irqchip/plic/mod.rs:140-152 | handling an update event refines the specification |
| VirtualPlics.VirtualPlic.Reset | src/device/irqchip/plic/mod.rs:155-192 | the loops of the reset zero the zone's priorities and thresholds in the host PLIC, leave every enable as it was, and empty the event queues of the zone's CPUs |
| GicInjection.WordDecodes | src/device/irqchip/gicv3/mod.rs:383-391 | a written list register is pending, group 1, holds the interrupt id, and links the physical interrupt exactly below 8192 |
| GicInjection.CpuInterface.InjectIrq | src/device/irqchip/gicv3/mod.rs:344-394 | the loop and its branches compute the injection that `InjectExact` states register by register |
| GicInjection.InjectExact | src/device/irqchip/gicv3/mod.rs:344-394 | held: nothing changes; no free register: the interrupt goes to the end of the queue with its flag; otherwise exactly the lowest free register changes, to pending, group 1, the id, and a link to the physical interrupt if and only if `is_hardware` and no SGI |
| GicInjection.CpuInterface.HandleMaintenance | src/device/irqchip/gicv3/mod.rs:326-341 | the drain loop terminates and computes the specified maintenance |
| GicInjection.InjectKeeps | src/device/irqchip/gicv3/mod.rs:344-394 | no two occupied registers get the same interrupt; the maintenance interrupt is on exactly while something waits |
| GicInjection.InjectAdds | src/device/irqchip/gicv3/mod.rs:344-394 | the set of interrupts in registers or queue gains the injected one and loses none |
| GicInjection.InjectAnswers | src/device/irqchip/gicv3/mod.rs:343-394 | the answer is true exactly when the interrupt is in a register afterwards |
| GicInjection.MaintainKeeps | src/device/irqchip/gicv3/mod.rs:326-341 | the drain ends with an empty queue and the interrupt off, or with no free register and the interrupt on |
| GicInjection.MaintainConserves | src/device/irqchip/gicv3/mod.rs:326-341 | the drain loses and adds no interrupt, although a failed one is queued twice |
| GicInjection.MaintainInOrder | src/device/irqchip/gicv3/mod.rs:326-341 | the drain serves the queue in order, each interrupt with its own flag, until it is empty or the next one fits nowhere |
| GicInjection.MaintainFlags | src/device/irqchip/gicv3/mod.rs:326-341 | the drain writes an interrupt with the flag it was queued with |
| GicInjection.MaintainGrowsExact | src/device/irqchip/gicv3/mod.rs:329-338 | the queue grows if and only if its first interrupt fits in no register and is in none |
| GicInjection.FiredServesHead | src/device/irqchip/gicv3/mod.rs:371-381 | with two or more registers a maintenance interrupt always serves the first waiting interrupt and never lengthens the queue |
| GicInjection.OneRegisterGrows | src/device/irqchip/gicv3/mod.rs:371-381 | with one register the interrupt also fires while it is taken, and exactly then the queue grows |
| GicInjection.StepConserves | src/device/irqchip/gicv3/mod.rs:326-394 | only a guest completion takes an interrupt out, only an injection brings one in |
| GicInjection.RunConserves | src/device/irqchip/gicv3/mod.rs:326-394 | in every run: distinct registers, exact maintenance flag, nothing lost before its completion, nothing invented |
| GicInjection.RunFlags | src/device/irqchip/gicv3/mod.rs:326-394 | in every run an interrupt that is always injected with one flag has that flag in the queue and that link in the registers |
| GicInjection.ResetHolds | src/device/irqchip/gicv3/mod.rs:131-136 | cleared registers satisfy the invariant |
| Distributor.Dist.ZoneMask | src/device/irqchip/gicv2/vgic.rs:124-129 | the mask holds exactly the fields of the zone's interrupts |
| Distributor.Dist.ByteMask | src/device/irqchip/gicv2/vgic.rs:131-134 | the mask holds exactly the bytes of the access |
| Distributor.Dist.RestrictBitmaskAccess | src/device/irqchip/gicv2/vgic.rs:102-196 | the method computes the restricted access whose bit-level effect the lemmas state |
| Distributor.Dist.DistHandler | src/device/irqchip/gicv2/vgic.rs:199-314 | the dispatch to the restricted registers, and a panic exactly at the addresses that fall through to `todo!()` |
| Distributor.LastRegistersPanic | src/device/irqchip/gicv2/vgic.rs:97-99 | among the registers of single interrupts those addresses are exactly the last register of each bank |
| Distributor.WriteBits | src/device/irqchip/gicv2/vgic.rs:170-194 | a write changes exactly the permitted bits, to the written value or by the poke; every other bit of every register stays |
| Distributor.ReadBits | src/device/irqchip/gicv2/vgic.rs:162-168 | a read changes nothing and shows exactly the permitted bits |
| Distributor.AlignedBytes | src/device/irqchip/gicv2/vgic.rs:131-134 | for aligned accesses of 1, 2 or 4 bytes the byte mask is the access itself |
| Distributor.DispatchIs | src/device/irqchip/gicv2/vgic.rs:237-314 | by literal addresses: which bank, register, field width and effect each restricted address has, and that no others are restricted |
| Distributor.WriteIs | src/device/irqchip/gicv2/vgic.rs:102-196 | a write, interrupt by interrupt over literal addresses: bits of the zone's interrupts in the access take, set or clear as the address says; every other bit of every bank stays |
| Distributor.ReadIs | src/device/irqchip/gicv2/vgic.rs:162-168 | a read shows the fields of the zone's interrupts in the access, 0 for others, and changes nothing |
| Distributor.OtherInvisible | src/device/irqchip/gicv2/vgic.rs:102-196 | an access by a zone with other SPIs changes nothing about a zone's SPIs |
| Distributor.OwnAgrees | src/device/irqchip/gicv2/vgic.rs:102-196 | a zone's access depends, in its own SPIs, on nothing else |
| Distributor.ZonesDoNotInterfere | src/device/irqchip/gicv2/vgic.rs:102-196 | after any interleaving a zone's SPI state is what its own accesses alone would have made of it |
| Distributor.ReadsDoNotInterfere | src/device/irqchip/gicv2/vgic.rs:162-168 | and its reads of SPI registers show just that |
| VirtioHandoff.DrainKeeps | src/hypercall/mod.rs:178-226 | every step of the response drain keeps the invariant, for any responses; a failed assertion keeps the lock |
| VirtioHandoff.HandlerKeeps | src/device/virtio_trampoline.rs:122-130 | every step of the handler keeps it; its `unwrap` never fails |
| VirtioHandoff.ShutdownKeeps | src/hypercall/mod.rs:295-345 | every step of a shutdown keeps it, although it clears queues and lists at different moments |
| VirtioHandoff.ClearKeeps | src/device/irqchip/plic/mod.rs:182-190 | so does `arch_irqchip_reset`, which clears the event queues of the zone's CPUs on RISC-V |
| VirtioHandoff.StepKeeps | src/hypercall/mod.rs:170-345 | so does every step of the whole system |
| VirtioHandoff.HandoffHolds | src/hypercall/mod.rs:170-226 | in every run, for any number of devices: duplicate-free lists, a listed interrupt has an injection queued or its handler on the way, and accepted interrupts are injected, discarded by a shutdown or still listed, each once |
| VirtioHandoff.StepDies | src/hypercall/mod.rs:208-212 | a step fails the length assertion or the handler's `unwrap` if and only if it looks at a response for an unlisted interrupt while three are listed |
| VirtioHandoff.FourthPanics | src/hypercall/mod.rs:208-212 | four devices behind one CPU: one hypercall fails the length assertion |
| VirtioHandoff.PanicExact | src/hypercall/mod.rs:208-212 | once the bridge is initialised, the length assertion or the handler's `unwrap` can fail if and only if some CPU receives the interrupts of more than three devices |
| VirtioHandoff.WaitBlocks | src/hypercall/mod.rs:294-332 | while a shutdown waits, a CPU that waits for one of its two locks stays there whatever else happens, with its shutdown event |
| VirtioHandoff.TakesExact | src/hypercall/mod.rs:294-332 | while a shutdown waits, some run lets a CPU take its shutdown event if and only if it runs its guest, or is in a trap that has its zone's lock or needs that of another zone |
| VirtioHandoff.ShutdownReached | src/hypercall/mod.rs:294-332 | the same for every state of every run from the start |
| VirtioHandoff.ShutdownMeetsHandler | src/hypercall/mod.rs:294-332 | a run from the initial state reaches a CPU in the handler that cannot take its shutdown event |
| VirtioHandoff.ShutdownMeetsTrap | src/memory/mmio.rs:85-89 | so does a run in which the CPU has just trapped on a device access |
| HandoffEffects.ResponseExact | src/hypercall/mod.rs:205-219 | a response for any CPU: for a listed interrupt nothing changes; for another with fewer than three listed it is listed at the end, counted once and one injection event is queued; with three the assertion fails |
| HandoffEffects.HandlerInjects | src/device/virtio_trampoline.rs:122-130 | after k rounds the handler has injected exactly the first k listed interrupts |
| HandoffEffects.EventExact | src/device/virtio_trampoline.rs:122-130 | a CPU that takes an injection event injects exactly what is listed for it and leaves an empty list, a free lock and everything else as it was |
| HandoffEffects.ShutdownExact | src/hypercall/mod.rs:295-332 | when a shutdown gets to its wait, each CPU of the zone has only its shutdown event, nothing listed, and what was listed counts as discarded; no other CPU has changed |
| HandoffEffects.HolderUndisturbed | src/hypercall/mod.rs:178-226 | whatever the others do between two steps of the lock holder, the lists and the holder stay as they are, so these effects are those of every run |
| HandoffOff.OffExact | src/arch/aarch64/trap.rs:390-395 | a shutdown event sent by SYSTEM_OFF keeps the promises of the hand-off if and only if nothing is listed for the CPU, its handler is on the way, or the lock holder is just serving it |
| HandoffOff.RunUnheard | src/hypercall/mod.rs:208-219 | otherwise no listed interrupt is injected, whatever responses arrive for it, until a new one is listed or the zone is shut down |
| HandoffOff.OffLoses | src/arch/aarch64/trap.rs:390-395 | a run from the initial state, in which CPU 2 calls SYSTEM_OFF for itself and CPU 1, reaches the loss |
| RequestRing.FullExact | src/device/virtio_trampoline.rs:165-184 | the full test holds exactly at 31 waiting requests, equal indices exactly at none |
| RequestRing.GoKeepsRing | src/device/virtio_trampoline.rs:59-93 | a push under the lock overwrites no waiting request, whenever the backend advances |
| RequestRing.TakeKeepsRing | src/device/virtio_trampoline.rs:227-232 | the backend takes the oldest waiting request |
| RequestRing.FinishKeepsBalance | src/device/virtio_trampoline.rs:96-109 | an answer settles exactly the one access its CPU waits for |
| RequestRing.RingHolds | src/device/virtio_trampoline.rs:52-118 | in every run the slots from front to rear are the pushed, untaken requests in order, at most 31; a CPU has one configuration access on the way and leaves its wait only when it is answered |
| RequestRing.RingShowsAccesses | src/device/virtio_trampoline.rs:52-118 | in every run the requests of a CPU in the ring are the accesses of its guest, in order, with their payload and kind, and all of them whenever the guest runs |
| RequestRing.AccessPushes | src/device/virtio_trampoline.rs:52-118 | an access that nobody disturbs pushes its request in a ring with room, frees the lock, and waits exactly if it is a configuration access |
| Zones.IndexOf | src/zone.rs:171-177 | the first listed zone with the id, or none |
| Zones.Admit | src/zone.rs:244-257 | the CPUs are admitted only if all exist and none has a zone |
| Zones.FirstFrom | src/percpu.rs:127-129 | the lowest CPU of the set, or none |
| Zones.CreateKeeps | src/zone.rs:200-297 | creation keeps ownership exact on every path and lists nothing |
| Zones.StartKeeps | src/hypercall/mod.rs:235-281 | so does a start, all error paths included |
| Zones.NobodyLeft | src/hypercall/mod.rs:334-337 | after the last loop of a shutdown no CPU's record points to the zone |
| Zones.ShutdownKeeps | src/hypercall/mod.rs:283-345 | a shutdown keeps ownership and the root zone, and panics if and only if a CPU without a zone calls it, or code on some CPU holds a clone of the reference to the zone being shut down |
| Zones.RunSeparates | src/zone.rs:144-177 | in every run listed zones have different ids and disjoint CPUs that point back, and entry 0 stays the root zone |
| Zones.BootHolds | src/main.rs:149-152 | the state after the root zone's creation satisfies the invariant |
| Zones.OrphanExact | src/hypercall/mod.rs:260-271 | a start leaves a zone in no list if and only if the zone could be created and its first CPU is missing or already on |
| Zones.OrphanStepExact | src/hypercall/mod.rs:235-345 | a step ends such a zone if and only if it is a SYSTEM_OFF by one of the zone's own CPUs, outside a trap and with the list's lock not lost |
| Zones.OrphanStays | src/hypercall/mod.rs:260-345 | in every run without that, nothing lists the zone or gives its CPUs to another |
| Zones.SystemOffKeeps | src/arch/aarch64/trap.rs:385-405 | SYSTEM_OFF keeps ownership, the list and the root zone, in a zone without a list entry too |
| Zones.OffIsShutdown | src/arch/aarch64/trap.rs:385-405 | in a listed zone other than the root zone SYSTEM_OFF has the effect of a shutdown by the root zone, its panic included |
| Zones.SystemOffExact | src/arch/aarch64/trap.rs:385-405 | SYSTEM_OFF panics if and only if the caller has no zone, or one that is in no list, or one that code on some CPU holds a clone of |
| Zones.TrapLosesLock | src/memory/mmio.rs:85-89 | from every state, a trap on one CPU of a zone followed by SYSTEM_OFF on another, or by a shutdown of the zone, loses the lock of the zone list |
| Zones.LostForever | src/zone.rs:160-169 | after that, in every run, no zone starts or ends, and every call by a CPU with a zone waits for ever |
| Zones.OrphanOff | src/zone.rs:160-169 | in a zone that is in no list it frees the zone's CPUs, unlists any zone with the same id, and panics |
| Zones.StartThenShutdown | src/hypercall/mod.rs:235-345 | shutting a started zone down restores the list, the zones and the owner of every CPU |
| Zones.WaitPoweredOff | src/hypercall/mod.rs:318-332 | the wait ends whatever the power flags do, within `MAX_WAIT_TIMES` reads plus one pass, and earlier only when a pass finds all CPUs off |
| Zones.ZoneTable.FindZone | src/zone.rs:171-177 | the loop finds the first zone with the id |
| Zones.ZoneTable.AdmitCpus | src/zone.rs:244-257 | the loop's verdict is that of the first bad CPU |
| Zones.ZoneTable.GiveCpus | src/zone.rs:284-293 | the loop changes the zone of exactly the CPUs in the set |
| Zones.ZoneTable.ZoneCreate | src/zone.rs:200-297 | creation refines the specification |
| Zones.ZoneTable.RemoveZone | src/zone.rs:160-169 | removal refines the specification: the first zone with the id, the reference count, and the lock that a panic keeps |
| Zones.ZoneTable.HvZoneStart | src/hypercall/mod.rs:235-281 | the start hypercall computes the call whose outcome and effect `StartExact` and `StartEffect` state |
| Zones.ZoneTable.HvZoneShutdown | src/hypercall/mod.rs:283-345 | the shutdown hypercall computes the call whose outcome and effect `ShutdownExact` and `ShutdownEffect` state |
| Zones.ZoneTable.PsciSystemOff | src/arch/aarch64/trap.rs:385-405 | SYSTEM_OFF refines the specification |
| ZoneCalls.StartExact | src/hypercall/mod.rs:235-281 | Ok if and only if the caller is in the root zone, the size is right, no listed zone has the id, every configured CPU exists and is free, at least one is configured and the lowest is off; EPERM, EINVAL, EBUSY and each panic if and only if their own conditions |
| ZoneCalls.StartEffect | src/hypercall/mod.rs:235-281 | a start that can create its zone leaves it with exactly the configured CPUs, each pointing to it, and appends it to the list exactly on Ok; any other start changes nothing |
| ZoneCalls.ShutdownExact | src/hypercall/mod.rs:283-345 | what a shutdown answers, each answer if and only if its own condition |
| ZoneCalls.ShutdownEffect | src/hypercall/mod.rs:283-345 | an accepted shutdown removes the zone from its place in the list and frees exactly its CPUs |
| ZoneCalls.AdmitExact | src/zone.rs:244-257 | the CPUs are admitted if and only if all exist and are free, refused with EBUSY if and only if the first bad one has a zone, and panic if and only if it does not exist |
| Boot.StepKeeps | src/main.rs:181-290 | every step of every CPU keeps roles, exact counters, barriers and the range minimum |
| Boot.BootIsSafe | src/main.rs:181-290 | in every run on every machine: no assertion fails outside the table lookup of early initialisation, one primary, per-CPU initialisation only after early initialisation, the guest only after every CPU is initialised and late initialisation has ended, exactly the configured CPUs have the root zone, from its creation on, and the PARANGE used is the minimum over all CPUs |
| Boot.EarlyInitReads | src/arch/aarch64/mm.rs:146-149 | early initialisation reads the minimum over all CPUs, and finds it in the table if and only if some CPU reports a known range |
| Boot.PanicExact | src/arch/aarch64/mm.rs:146-149 | some schedule panics if and only if no CPU reports a range the table knows |
| Boot.SomeCpuMoves | src/main.rs:110-118 | no deadlock: until all CPUs run their guests or early initialisation has panicked, some CPU can move |
| Boot.StepLeavesLess | src/main.rs:181-290 | every move leaves less to do |
| Boot.BootCompletes | src/main.rs:181-290 | no run makes more than 20n(n + 2) moves, and when no CPU can move all run their guests, or, with no known range, early initialisation has panicked |
| Boot.DepthOfLeastRange | src/arch/aarch64/mm.rs:151-157 | the tables have three levels if and only if some CPU has less than 44 address bits |
| CommandQueue.EmptyFullExact | src/arch/aarch64/iommu.rs:284-304 | the registers show empty and full exactly at occupancy 0 and 2^n |
| CommandQueue.IncCounts | src/arch/aarch64/iommu.rs:310-314 | `inc_prod` adds one modulo 2^(n+1) and keeps bit 31 |
| CommandQueue.PutKeeps | src/arch/aarch64/iommu.rs:316-327 | the written entry holds no command that still waits |
| CommandQueue.DeviceKeeps | src/arch/aarch64/iommu.rs:564-573 | the device takes the oldest published command |
| CommandQueue.DeviceTakesWhatWasGiven | src/arch/aarch64/iommu.rs:509-573 | in every run and for every hardware size: commands are taken in order, all are taken when `cmd_insert` has returned, and entries stay in the single frame |
| CommandQueue.DeviceTakesWhatWasCalled | src/arch/aarch64/iommu.rs:509-573 | in every run the device has taken the commands of the calls, in order, and all of them whenever `cmd_insert` has returned |
| CommandQueue.CallCompletes | src/arch/aarch64/iommu.rs:564-573 | from every state in which no call runs, a call finds room, publishes its command, and returns with the command taken by a device that answers |

## Left out

- `update`, `clone` and `Mapper::Fixed`: `update` of an unmapped address writes an upper-level entry, and clones share tables that they do not track.
- MemorySets.MemorySet.Insert: only for regions that fit (`Regions.FitsExact`); beyond that the code maps aliases, which `PageTables.SeenAlike` and `Stage2Entry.OnlyLowBits` describe page by page. A failed insert leaves pages mapped and is described, not undone; with such leftovers ENOMEM and EFAULT have necessary conditions only.
- MemorySets.Apply: for inserts of regions that fit, as `Insert`.
- MemorySets.Run: for inserts of regions that fit, as `Insert`.
- Ivc.InsertSection: for sections that fit, as `Insert`.
- Ivc.MapWindow: for windows that fit, as `Insert`.
- Ivc.JoinWindow: for windows that fit, as `Insert`.
- Mapping.MapRegion: for regions that fit, as `Insert`; `debug_assert!` of page alignment is not modelled, because the chosen sizes are always aligned.
- Mapping.MapNext: for regions that fit, as `Insert`.
- Mapping.UnmapRegion: for regions that end within the table's range, as `Insert`.
- TLB maintenance, `activate`, and reuse of emptied tables.
- PlicRuns.RunKeepsWakeups: software interrupts, each enabled in at most one S-mode context, completed through that context, and no shutdown of the CPU; what happens outside this is in the exactness lemmas and the runs of `PlicLost`.
- The host PLIC's own behaviour (its pending bits, claims by the trap handler and routing), its initialisation, and `vplic_set_hw` after creation.
- PlicMap.ThresholdAt: for a vPLIC whose enable registers end before this context's block, which holds up to 15872 contexts; with more, the enable registers win.
- PlicMap.ClaimAt: for such a vPLIC, as `ThresholdAt`.
- PlicMap.CompleteAt: for such a vPLIC, as `ThresholdAt`.
- GicInjection.RunConserves: conservation is of the set of interrupts, not of the order or multiplicity in the queue, because a failed re-injection is queued twice.
- GICv2 list registers, the GICv3 distributor and redistributor emulation, and ITS command forwarding.
- Distributor.Dist.DistHandler: what SGIR writes and the identification registers do in the hardware is not modelled.
- Distributor.WriteIs: for naturally aligned accesses of 1, 2 or 4 bytes; `WriteBits` is about all others too.
- Distributor.ReadIs: for such accesses, as `WriteIs`.
- VirtioHandoff.HandoffHolds: a queued event may still wait for its interrupt, since SGIs coalesce; SYSTEM_OFF is not a step of these runs but is compared with their invariant in `HandoffOff`; what a trap does with its device is not modelled, only that it needs the lock of its zone; the bridge is initialised (before, `hv_virtio_inject_irq` panics); the LoongArch variants are not modelled.
- RequestRing.RingHolds: the backend takes one request at a time and answers each configuration access once; the `need_wakeup` event is not modelled.
- Zones.CreateKeeps: memory, MMIO, PCI and interrupt initialisation inside `zone_create`, whose failures panic, are not modelled; zone calls are atomic steps, so a SYSTEM_OFF during the wait of a shutdown is not covered.
- Zones.ZoneTable.HvZoneShutdown: events and IRQ lists of the CPUs are in the hand-off model and not here.
- Boot.BootIsSafe: the secondaries start only through the primary, and the CPU count is the same on all CPUs.
- CommandQueue.DeviceTakesWhatWasGiven: error codes in the consumer register and the bits of the commands are not modelled.
- Ivc.JoinedShare: the control table and its interrupts (`mmio_ivc_handler`) are not modelled.
- RISC-V and LoongArch paging, UARTs, PCI, PSCI, system registers, assembly entry code, board tables and build scripts.

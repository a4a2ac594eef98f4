# Intel Quark firmware: multiprocessor, paging and memory-map logic

This project models the parts of the Quark EDK II firmware in which many processors, page tables
or interval maps are changed step by step, and proves what that code is for: the SMM rendezvous,
the SMM page tables, the DXE MP services, the refresh of the GCD memory space from the MTRRs, the
SMRAM and SMBASE layout, processor numbering, hot-plug bookkeeping, and the firmware-volume walk of
the SEC phase.

`dafny verify dfyconfig.toml` covers all modules.

## The modules

- **SmmRendezvous**, **SmmRendezvousInvariant**, **SmmRendezvousSteps**,
  **SmmRendezvousTargetSteps**, **SmmRendezvousTheorems**: `SmiRendezvous`, `BSPHandler`,
  `APHandler` and `SmmStartupThisAp` as a transition system with one program counter per processor
  and one access to `mSmmMpSyncData` per step, for any number of processors and any number of SMI
  runs. An inductive invariant carries the theorems; each kind of step has its own lemma.
- **SmmRendezvousProgress**: after the lockdown every step of a participant lowers a natural number,
  but for the calls the BSP makes inside `SmmCoreEntry`; so the reset of `mSmmMpSyncData` comes after
  a number of steps bounded by the processors and the calls.
- **SmmSemaphoreCas**: the same machine with every semaphore operation written out as load, test and
  compare-exchange that may fail and start over; it refines the atomic one.
- **Paging**: PAE tables as memory pages of 512 entries, a walk through them, and what replacing an
  entry or splitting a 2 MB page does to every other page. **SmmProtection**: protected ranges and
  the list of 2 MB pages to split. **SmmPageFaults**: the log of overwritten entries.
  **SmmPageTables**: the class whose methods are `InitPaging`, `SetCacheability`,
  `RestorePageTableBelow4G` and `DebugExceptionHandler`. **SmmPageTableBuild**: `Gen4GPageTable`.
  **SmmPageSetup**: building the tables, making the page of `mSmmMpSyncData` uncached, protecting and
  patching one after the other.
- **DxeMpServices**, **DxeMpSystem**: `mMPSystemData` as a class whose methods are the MP services.
  Between any two accesses of the BSP the APs take the turns that a schedule gives them, and every
  contract holds for every schedule.
- **GcdRefresh**: `RefreshGcdMemoryAttributes` over a byte-wise map of attributes.
- **SmramDiscovery**, **SmmTiling**, **ApicOrder**, **CpuHotPlug**, **FirmwareVolume**:
  `FindSmramInfo`, the tiles of `PiCpuSmmEntry`, `MpApic.c`, `CpuService.c` and `FindImageBase`.

## What is assumed of the surroundings

- Memory is sequentially consistent. Timeouts, the answer of `PlatformValidSmi`, the calls made by
  the SMM core and the delivery of SMIs are free choices of every step.
- `NeedConfigureMtrrs` always answers TRUE in this package (SmmFeatures.c:237-248), so the
  traditional rendezvous is the only one that happens. The platform election hook gives no answer,
  so the compare-exchange election decides; `SwitchBsp` and `CandidateBsp` only filter who takes part.
- An AP gives up (MpService.c:624-636) only while `InsideSmm` is FALSE, test and decrement being one
  step; the comment at lines 400-402 relies on this timing. Only the BSP, inside `SmmCoreEntry`,
  schedules procedures. The two writes at lines 565-566 are one step. There are fewer than 2^32 - 1
  processors.
- Only IA-32 is modelled: 4 page-directory-pointer entries, 32-bit addresses.
- `AllocatePages` answers a free page as long as there is one; where there is none the methods of the
  page tables return `ok == false` in the place of the ASSERT.
- The APs of the DXE services wait in one mode, a parameter (`PcdCpuApLoopMode`, by default the halt
  loop, IA32FamilyCpuBasePkg.dec:121). `ResetProcessorToIdleState` (CpuMpDxe/MpService.c:1435-1455)
  does not touch `StartupApSignal`: only in the halt loop, which does not look at it, does the INIT
  signal leave no wake-up behind (CpuMpDxe/IA32/MpFuncs.asm:313-346).
- An all-AP job is not interrupted by a successful second `StartupAllAPs` or by `EnableDisableAP` on
  one of its APs.
- The SMI entry code clears CR0.WP (Ia32/SmiEntry.asm:103-108), so the SMM code, which runs at the
  highest privilege, takes page faults for absent pages and for fetches from execute-disabled ones,
  but none for write-protected ones.
- The RAS handler does not map an APIC ID into a slot with a pending operation, unless said so.
- GCD's `SetMemorySpaceAttributes` sets the attributes of exactly the bytes it is given. The memory
  space map is sorted, without gaps, and reaches at least 1 MB; a valid variable MTRR is not empty.
- The save state of a processor takes the 1 KB from its offset 0xFC00 to the end of its 64 KB.
- The boot firmware volume lies below 4 GB. Its headers are those of the PI Specification, Vol. 3,
  section 3.2; an extended file header has 32 bytes.

## What the code turned out not to do

- A split by `SetCacheability` takes the write permission away from all 512 pages, because the new
  directory entry is only present; and its 32-bit masks clear NX and all address bits above 4 GB in
  every entry it rewrites. `SmmPageTables.AfterAll` gives the outcome of any list of requests in terms
  of the requests and of which pages were 2 MB pages before them, and
  `PageTables.SetCacheabilities` runs them.
- `InitPaging` writes fixed entries when it splits a 2 MB page: the page's mapping survives exactly if
  the 2 MB entry was plain (`SmmPageTables.SplitForgets`); an uncached one is not
  (`SplitForgetsUncached`). The calls of this package never make it split such an entry:
  `Gen4GPageTable` writes plain ones and `SetCacheability` has already split the only 2 MB page it
  touches, so nothing is lost (`SmmPageSetup.Prepare`).
- An eleventh page fault before the single step is not recorded, and then the tables are not restored
  (`DebugExceptionHandler` and `SmmPageTables.TouchAndStep`, if-and-only-ifs;
  `SmmPageSetup.EleventhIsLost` runs it on tables built from scratch). In a debug build
  the ASSERTs at SmmProfile.c:1167 and 1201 stop the processor before that.
- An empty protected range splits the 2 MB page it lies inside of (`SmmProtection.Cuts`).
- With the stack guard, the loop of `Gen4GPageTable` ends if and only if the last guard page lies
  below the last 2 MB under 4 GB: otherwise its 32-bit counter wraps around and stays at or below the
  boundary for ever (`SmmPageTableBuild.LoopEndsIff`, `LoopForEver`).
- A rejected `StartupAllAPs` has already rewritten the beginning of `CpuList`. A pending job's list
  survives exactly if the least enabled AP is at work and not on it (`DxeMpSystem.RejectedKeepsList`);
  if that AP is on the list, the job loses it (`SecondStart`), and no later `CheckAllAPs` finds that
  it has succeeded (`LostStaysLost`).
- An AP that finishes after `CheckAllAPs` has visited it is reported as failed. A reported AP has run
  the procedure exactly if it was Finished when it was reset (`DxeMpSystem.Told`); `ReportsFinished`
  makes that happen in every pending job with a Busy AP.
- After a timeout a wake-up is left over exactly if the APs do not wait in the halt loop and a
  reported AP had been woken up (`CheckAllAPs`, `CheckThisAP`). Such an AP later runs its old
  procedure and counts as finished for the new one (`DxeMpSystem.StaleCountsAsFinished`).
- A variable MTRR that reaches beyond the memory space map is ignored as a whole. At a byte the
  result follows the precedence rule of the MTRRs for every default type if and only if the MTRR that
  decides there, or one of the same outcome, ends inside the map (`GcdRefresh.ClippingIff`); for one
  default type also if nothing that holds the byte ends inside the map and the default happens to have
  the attribute of what decides (`ClippingFor`). `ClippingShows` gives a map and a byte where it fails.
- `FindSmramInfo` does not stop at the right window if SMRAM reaches from the chosen range to 4 GB and
  there is also SMRAM at address 0 (`SmramDiscovery.WrapNeverSettles`, `WrapExists`).
- `SmmAddProcessor` into a slot with a pending removal loses that removal: the count of processors
  stays right exactly if nothing was pending (`CpuHotPlug.CpuService.AddProcessor`, `Update`), and
  `LoseRemoval` ends with three processors counted where two are present.

## Model

| member | source | states |
|---|---|---|
| SmmRendezvousTheorems.InitialInv | IA32FamilyCpuBasePkg/PiSmmCpuDxeSmm/MpService.c:1223-1239 | the state InitializeMpSyncData leaves satisfies the invariant of the protocol |
| SmmRendezvousTheorems.StepKeepsInv | IA32FamilyCpuBasePkg/PiSmmCpuDxeSmm/MpService.c:328-759 | every step of every processor keeps the invariant |
| SmmRendezvousTheorems.ReachableInv | IA32FamilyCpuBasePkg/PiSmmCpuDxeSmm/MpService.c:1025-1215 | the invariant holds after any number of steps and SMI runs, for any number of processors |
| SmmRendezvousTheorems.BarrierLockstep | IA32FamilyCpuBasePkg/PiSmmCpuDxeSmm/MpService.c:135-166 | when the BSP returns from its b-th WaitForAllAPs, ApCount is the number of participating APs, each has released the BSP's Run exactly b times, and the semaphore is empty |
| SmmRendezvousTheorems.NobodyRunsAhead | IA32FamilyCpuBasePkg/PiSmmCpuDxeSmm/MpService.c:651-759 | no AP is ever more than one barrier behind the BSP or ahead of it |
| SmmRendezvousTheorems.MtrrOrder | IA32FamilyCpuBasePkg/PiSmmCpuDxeSmm/MpService.c:393-430 | all MTRR backups precede all replacements, these all procedures, and nobody restores OS MTRRs before every participant has left the work loop |
| SmmRendezvousTheorems.DispatchOnce | IA32FamilyCpuBasePkg/PiSmmCpuDxeSmm/MpService.c:951-976 | an AP executes the accepted procedures in order and once each, with at most one outstanding |
| SmmRendezvousTheorems.NoConfusedToken | IA32FamilyCpuBasePkg/PiSmmCpuDxeSmm/MpService.c:690-721 | inside SMM a token taken in the work loop stands for one accepted procedure whose Busy is held; after InsideSmm is FALSE nothing is left undone, so a token is the exit token |
| SmmRendezvousTheorems.OneBsp | IA32FamilyCpuBasePkg/PiSmmCpuDxeSmm/MpService.c:1146-1199 | at most one processor is in BSPHandler |
| SmmRendezvousTheorems.LockdownFreezesMembers | IA32FamilyCpuBasePkg/PiSmmCpuDxeSmm/MpService.c:381-386 | from the lockdown to the reset nobody joins or leaves, and ApCount is the number of participating APs |
| SmmRendezvousTheorems.LateStaysOut | IA32FamilyCpuBasePkg/PiSmmCpuDxeSmm/MpService.c:1105-1116 | a processor whose check-in was refused is not Present, holds no token, and only leaves after the run |
| SmmRendezvousTheorems.StrangersUntouched | IA32FamilyCpuBasePkg/PiSmmCpuDxeSmm/MpService.c:151-166 | the Run of a processor outside the run is zero and it is not Present |
| SmmRendezvousTheorems.AssertsHold | IA32FamilyCpuBasePkg/PiSmmCpuDxeSmm/MpService.c:340-708 | the ASSERTs of the handlers hold: the BSP is the one in BspIndex, an AP is not, Busy is held in the work loop |
| SmmRendezvousTheorems.CounterFits | IA32FamilyCpuBasePkg/PiSmmCpuDxeSmm/MpService.c:177-190 | Counter never exceeds the number of processors before the lockdown |
| SmmRendezvousTheorems.CleanExit | IA32FamilyCpuBasePkg/PiSmmCpuDxeSmm/MpService.c:535-566 | the reset leaves the state of InitializeMpSyncData, and by then every participant has backed up, replaced and restored its MTRRs once, signalled six times and run all it was given |
| SmmRendezvousTheorems.NoDeadlock | IA32FamilyCpuBasePkg/PiSmmCpuDxeSmm/MpService.c:328-759 | while anybody is in the run some participant can make a move that changes the state |
| SmmRendezvousProgress.RunStep | IA32FamilyCpuBasePkg/PiSmmCpuDxeSmm/MpService.c:381-759 | after the lockdown every step of a participant lowers the measure, but for a call inside SmmCoreEntry, which raises it by at most eight; no other step changes it, and nobody joins or leaves before the reset |
| SmmRendezvousProgress.MeasureBounded | IA32FamilyCpuBasePkg/PiSmmCpuDxeSmm/MpService.c:381-759 | the measure is between 0 and 20 + 36n for n processors, and at most 11 + 22n once SmmCoreEntry has returned |
| SmmRendezvousProgress.RunIsBounded | IA32FamilyCpuBasePkg/PiSmmCpuDxeSmm/MpService.c:381-759 | in any interleaving the participants together make no more steps between the lockdown and the reset than the measure says, and nine for every call |
| SmmRendezvousProgress.ExitIsBounded | IA32FamilyCpuBasePkg/PiSmmCpuDxeSmm/MpService.c:446-759 | once SmmCoreEntry has returned there are no calls any more and the bound is the measure |
| SmmRendezvousProgress.RunCompletes | IA32FamilyCpuBasePkg/PiSmmCpuDxeSmm/MpService.c:381-567 | from every reachable state after the lockdown the participants' own steps reach the reset, without any call |
| SmmSemaphoreCas.SwapIsNext | IA32FamilyCpuBasePkg/PiSmmCpuDxeSmm/MpService.c:55-126 | a successful compare-exchange with the loaded value is the atomic semaphore operation |
| SmmSemaphoreCas.RefusalIsNext | IA32FamilyCpuBasePkg/PiSmmCpuDxeSmm/MpService.c:84-100 | a release that finds the maximum is the atomic release of a locked semaphore |
| SmmSemaphoreCas.CasStepRefines | IA32FamilyCpuBasePkg/PiSmmCpuDxeSmm/MpService.c:55-126 | every step of a compare-exchange loop is an atomic step or changes nothing shared |
| SmmSemaphoreCas.CasRefines | IA32FamilyCpuBasePkg/PiSmmCpuDxeSmm/MpService.c:55-126 | every state the compare-exchange machine reaches projects to one the atomic machine reaches |
| Paging.PutLeafWalk | IA32FamilyCpuBasePkg/PiSmmCpuDxeSmm/SmmProfile.c:541-590 | writing the entry of one page changes the mapping of exactly the pages that share the entry |
| Paging.PutLeafFormed | IA32FamilyCpuBasePkg/PiSmmCpuDxeSmm/SmmProfile.c:541-590 | the tables stay well-formed: no two entries share a table |
| Paging.SplitWalk | IA32FamilyCpuBasePkg/PiSmmCpuDxeSmm/SmmProfile.c:511-530 | a directory entry that gets a new table maps its 512 pages by it and leaves all others |
| SmmProtection.IsAddressValid | IA32FamilyCpuBasePkg/PiSmmCpuDxeSmm/SmmProfile.c:266-288 | the first range that holds the address decides, none means absent |
| SmmProtection.IsAddressSplit | IA32FamilyCpuBasePkg/PiSmmCpuDxeSmm/SmmProfile.c:297-317 | TRUE iff some split range holds the address |
| SmmProtection.SplitRanges | IA32FamilyCpuBasePkg/PiSmmCpuDxeSmm/SmmProfile.c:401-444 | a range contributes exactly the 2 MB pages it overlaps without containing, in every alignment |
| SmmProtection.SplitList | IA32FamilyCpuBasePkg/PiSmmCpuDxeSmm/SmmProfile.c:398-447 | a 2 MB page is in the split list iff some protected range cuts it |
| SmmProtection.InitProtectedMemRange | IA32FamilyCpuBasePkg/PiSmmCpuDxeSmm/SmmProfile.c:347-447 | the ranges are the template and then the MMIO descriptors, and the split list is exact for them |
| SmmProtection.AccessIs | IA32FamilyCpuBasePkg/PiSmmCpuDxeSmm/SmmProfile.c:87-108 | the template decides where it says something; elsewhere exactly MMIO is present, execute-disable |
| SmmProtection.UncutIsUniform | IA32FamilyCpuBasePkg/PiSmmCpuDxeSmm/SmmProfile.c:558-571 | IsAddressValid is constant on a 2 MB page that is left unsplit, so asking for its first address suffices |
| SmmPageTables.PageTables.SplitPages | IA32FamilyCpuBasePkg/PiSmmCpuDxeSmm/SmmProfile.c:498-535 | after the first pass no 2 MB entry is in the split list; its pages are mapped by fixed 4 KB entries and every other page is mapped as before, whatever the entries were |
| SmmPageTables.SplitForgets | IA32FamilyCpuBasePkg/PiSmmCpuDxeSmm/SmmProfile.c:516-529 | a split keeps the mapping iff the 2 MB entry was plain |
| SmmPageTables.SplitForgetsUncached | IA32FamilyCpuBasePkg/PiSmmCpuDxeSmm/SmmProfile.c:516-529 | any plain 2 MB page, made uncached as a whole and then split, would lose its mapping |
| SmmPageTables.LeafPatched | IA32FamilyCpuBasePkg/PiSmmCpuDxeSmm/SmmProfile.c:556-586 | patching one entry patches exactly the pages that share it |
| SmmPageTables.PageTables.PatchPages | IA32FamilyCpuBasePkg/PiSmmCpuDxeSmm/SmmProfile.c:541-590 | the second pass patches every page by its own protection, 2 MB pages included |
| SmmPageTables.PageTables.InitPaging | IA32FamilyCpuBasePkg/PiSmmCpuDxeSmm/SmmProfile.c:464-600 | a page is present iff it was and IsAddressValid allows it, NX is added iff asked for and supported, all else is as before or, for a split 2 MB page, as the fixed 4 KB entries say; if the split entries were plain nothing else changes at all |
| SmmPageTables.PageTables.RestorePageTableBelow4G | IA32FamilyCpuBasePkg/PiSmmCpuDxeSmm/SmmProfile.c:1126-1218 | a fault leaves its page identity-mapped, present, executable and, as far as its table allows, writable; no other entry is touched and the log grows while there is room |
| SmmPageTables.PageTables.DebugExceptionHandler | IA32FamilyCpuBasePkg/PiSmmCpuDxeSmm/SmmProfile.c:227-257 | the single step restores the original tables iff there were at most ten faults, and then the tables are well-formed and open and the log is empty, so that faults and steps can go on |
| SmmPageTables.TouchAndStep | IA32FamilyCpuBasePkg/PiSmmCpuDxeSmm/SmmProfile.c:227-257 | an instruction that touches absent pages with entries of their own, and the single step after it, leave the tables as they were iff there were at most ten pages |
| SmmPageTables.FaultIsFixed | IA32FamilyCpuBasePkg/PiSmmCpuDxeSmm/SmmProfile.c:1155-1217 | a fault is due to the page's own entry and the new entry mends it |
| SmmPageFaults.FixExtends | IA32FamilyCpuBasePkg/PiSmmCpuDxeSmm/SmmProfile.c:1167-1186 | a fixed entry cannot fault again, so saved places are pairwise distinct and writing them back still gives the original tables |
| SmmPageFaults.RestoreTen | IA32FamilyCpuBasePkg/PiSmmCpuDxeSmm/SmmProfile.c:241-251 | writing back the first ten saved entries in forward order restores the tables iff there are no more than ten |
| SmmPageTables.PageTables.SetCacheability | IA32FamilyCpuBasePkg/PiSmmCpuDxeSmm/MpService.c:873-934 | the target page gets the cacheability; every page keeps presence, page number and, if not the target, PCD, PWT and PAT, also through a split |
| SmmPageTables.PageTables.SetCacheabilities | IA32FamilyCpuBasePkg/PiSmmCpuDxeSmm/MpService.c:873-934 | after any list of requests every page has its last requested cacheability or its own, its presence and page number; it keeps write permission iff its 2 MB page was not split by a request, and NX and the address bits above 4 GB iff besides it was not asked for itself |
| SmmPageTables.AfterNext | IA32FamilyCpuBasePkg/PiSmmCpuDxeSmm/MpService.c:873-934 | one more call turns the outcome of a list of requests into the outcome of the longer list, where it splits iff the page was part of a 2 MB page and no request before was for that one |
| SmmPageTableBuild.NextAwaited | IA32FamilyCpuBasePkg/PiSmmCpuDxeSmm/MpService.c:842-852 | after a guard page the loop waits for the next one, or for none that can still come, in 32-bit arithmetic |
| SmmPageTableBuild.FillTable | IA32FamilyCpuBasePkg/PiSmmCpuDxeSmm/MpService.c:839-856 | a table maps its 512 pages to themselves and leaves exactly the guard pages out |
| SmmPageTableBuild.IndexStays | IA32FamilyCpuBasePkg/PiSmmCpuDxeSmm/MpService.c:833-833 | before the first turn past the boundary the additions of 2 MB to PageIndex do not wrap around |
| SmmPageTableBuild.LoopEndsIff | IA32FamilyCpuBasePkg/PiSmmCpuDxeSmm/MpService.c:792-833 | the loop over the 2 MB pages passes its boundary iff the last guard page lies below WORD - 2 MB |
| SmmPageTableBuild.LoopForEver | IA32FamilyCpuBasePkg/PiSmmCpuDxeSmm/MpService.c:833-833 | a stack array for which the loop never passes its boundary |
| SmmPageTableBuild.Gen4GPageTable | IA32FamilyCpuBasePkg/PiSmmCpuDxeSmm/MpService.c:770-862 | where its loop ends: every page below 4 GB is mapped to itself, present iff it is no guard page; exactly the 5 + PagesNeeded allocated pages are used |
| SmmPageTableBuild.GuardsAreInside | IA32FamilyCpuBasePkg/PiSmmCpuDxeSmm/PiSmmCpuDxeSmm.c:1280-1284 | all guard pages of the stack array lie between the two 2 MB boundaries |
| SmmPageSetup.Prepare | IA32FamilyCpuBasePkg/PiSmmCpuDxeSmm/MpService.c:1276-1396 | the tables built, the page of mSmmMpSyncData made uncached, protected ranges listed and patched: identity, present iff no guard page and allowed, NX as asked, the one page uncached and its 2 MB page without write permission iff it had to be split; what InitPaging splits was plain |
| SmmPageSetup.EleventhIsLost | IA32FamilyCpuBasePkg/PiSmmCpuDxeSmm/SmmProfile.c:1166-1206 | tables and eleven faults after which the single step does not give the tables back |
| DxeMpServices.StepKeepsJob | IA32FamilyCpuBasePkg/CpuMpDxe/MpService.c:1283-1359 | a step of an AP of the job keeps its history: entered and left at most once, in single-thread mode only by the AP whose turn it is |
| DxeMpServices.StrikeKeepsJob | IA32FamilyCpuBasePkg/CpuMpDxe/MpService.c:919-922 | taking a finished AP off the list keeps the history and passes the turn on |
| DxeMpSystem.MpSystem.RunAps | IA32FamilyCpuBasePkg/CpuMpDxe/MpService.c:1283-1359 | the APs take exactly the turns they are given, also while a job is being aborted, and the history is kept until each one's reset |
| DxeMpSystem.MpSystem.MarkIdleAps | IA32FamilyCpuBasePkg/CpuMpDxe/MpService.c:304-323 | succeeds iff every enabled AP was idle when it was called; otherwise the list is the new marks below the first busy one and the old list above it, and the history of the old job goes on |
| DxeMpSystem.MpSystem.StartMarked | IA32FamilyCpuBasePkg/CpuMpDxe/MpService.c:325-357 | every marked AP is made Ready and counted; all are woken up, in single-thread mode only the first |
| DxeMpSystem.MpSystem.StartupAllAPs | IA32FamilyCpuBasePkg/CpuMpDxe/MpService.c:260-372 | the answer and the state for every outcome, NotReady iff an enabled AP was not idle, with the list it leaves behind and the history of the old job; on success a pending job with FinishCount + listed = StartCount whose APs, in single-thread mode the first of them, have been woken up |
| DxeMpSystem.MpSystem.PollOne | IA32FamilyCpuBasePkg/CpuMpDxe/MpService.c:906-945 | exactly a finished AP leaves the list and becomes Idle, and in single-thread mode the next one is woken up, also when it finishes at once |
| DxeMpSystem.MpSystem.Abort | IA32FamilyCpuBasePkg/CpuMpDxe/MpService.c:954-985 | every listed AP is reset, having taken the turns it got until then; the failed list is the listed APs in ascending order with its terminator, within its allocation |
| DxeMpSystem.MpSystem.CheckAllAPs | IA32FamilyCpuBasePkg/CpuMpDxe/MpService.c:889-988 | after every poll FinishCount + listed is the number of the job's APs, and whoever had finished before it is off the list; success iff none is listed and none was lost, and then each AP of the job ran the procedure exactly once; timeout reports exactly the listed ones, of which those that had finished at their reset have run it, and all others of the job have run it once; no wake-up is left over iff the APs wait in the halt loop or no reported one had been woken |
| DxeMpSystem.TellAll | IA32FamilyCpuBasePkg/CpuMpDxe/MpService.c:954-985 | at the resets a reported AP has begun the procedure iff it was Busy or Finished and ended it iff it was Finished, in single-thread mode only the least of them can have begun, and every other AP of the job has run it once |
| DxeMpSystem.StaleIff | IA32FamilyCpuBasePkg/CpuMpDxe/MpService.c:1435-1455 | after the resets no AP has a stale wake-up iff they wait in the halt loop or no reported one had been woken |
| DxeMpSystem.StaleCountsAsFinished | IA32FamilyCpuBasePkg/CpuMpDxe/MpService.c:1402-1420 | an AP that was Busy when a timed-out CheckAllAPs reset it outside the halt loop, once made Ready for another job, runs its old procedure, counts as Finished and never runs the new one |
| DxeMpSystem.JobDone | IA32FamilyCpuBasePkg/CpuMpDxe/MpService.c:947-952 | an empty list means every AP of the job, and no other, entered and left the procedure once |
| DxeMpSystem.SingleThreadOrder | IA32FamilyCpuBasePkg/CpuMpDxe/MpService.c:331-357 | in single-thread mode procedure bodies never overlap and run in ascending processor number |
| DxeMpSystem.RejectedKeepsList | IA32FamilyCpuBasePkg/CpuMpDxe/MpService.c:304-323 | a rejected call leaves the list of a pending job alone iff the least enabled AP is not idle and not on that list |
| DxeMpSystem.SecondStart | IA32FamilyCpuBasePkg/CpuMpDxe/MpService.c:304-323 | a pending job whose list begins with the least enabled AP loses it to a second call: FinishCount + listed is one less than StartCount and the job is lost |
| DxeMpSystem.LostStaysLost | IA32FamilyCpuBasePkg/CpuMpDxe/MpService.c:889-988 | CheckAllAPs never answers success for a lost job, and while it answers NotReady the job stays lost |
| DxeMpSystem.ReportsFinished | IA32FamilyCpuBasePkg/CpuMpDxe/MpService.c:957-985 | in every pending job with a Busy AP and nobody finished there is a run in which CheckAllAPs times out and reports that AP although it has run the procedure |
| DxeMpSystem.MpSystem.StartupThisAP | IA32FamilyCpuBasePkg/CpuMpDxe/MpService.c:431-520 | the answer for every case; an all-AP job that is waiting, be it pending or lost, is still so afterwards |
| DxeMpSystem.MpSystem.CheckThisAP | IA32FamilyCpuBasePkg/CpuMpDxe/MpService.c:1003-1050 | success iff finished, timeout iff not and expired, and then the AP is Idle; nobody else is touched; no stale wake-up is left iff it did not time out, waits in the halt loop or had not been woken |
| DxeMpSystem.MpSystem.GiveUpOn | IA32FamilyCpuBasePkg/CpuMpDxe/MpService.c:1435-1455 | a listed AP is reset, off the list and reported at its place; its wake-up is gone only in the halt loop |
| GcdRefresh.Gcd.SearchGcdMemorySpaces | IA32FamilyCpuBasePkg/CpuArchDxe/MemoryAttribute.c:175-201 | finds the descriptors of the first and last byte iff the range ends inside the map |
| GcdRefresh.Gcd.SetGcdMemorySpaceAttributes | IA32FamilyCpuBasePkg/CpuArchDxe/MemoryAttribute.c:218-280 | exactly the existing bytes of a range inside the map get the attribute, clipped by descriptor |
| GcdRefresh.PassesAreTheRule | IA32FamilyCpuBasePkg/CpuArchDxe/MemoryAttribute.c:355-403 | the three passes amount to the precedence rule: UC, then the last other type, then WB, then the default |
| GcdRefresh.ClippingFor | IA32FamilyCpuBasePkg/CpuArchDxe/MemoryAttribute.c:184-200 | for one default type the refresh follows the rule of the MTRRs at a byte iff what decides there ends inside the map, or nothing that holds it does and the default has the same attribute |
| GcdRefresh.ClippingIff | IA32FamilyCpuBasePkg/CpuArchDxe/MemoryAttribute.c:184-200 | it follows the rule for every default type iff what decides ends inside the map |
| GcdRefresh.ClippingAside | IA32FamilyCpuBasePkg/CpuArchDxe/MemoryAttribute.c:184-200 | in particular where every MTRR that holds the byte ends inside the map |
| GcdRefresh.ClippedIsIgnored | IA32FamilyCpuBasePkg/CpuArchDxe/MemoryAttribute.c:184-200 | a byte that only an MTRR reaching beyond the map holds gets the default, which is right iff both have the same attribute |
| GcdRefresh.ClippingShows | IA32FamilyCpuBasePkg/CpuArchDxe/MemoryAttribute.c:184-200 | a map, an MTRR and a byte where the two differ |
| GcdRefresh.CellNext | IA32FamilyCpuBasePkg/CpuArchDxe/MemoryAttribute.c:39-95 | the 88 sections of the fixed MTRR table follow each other from 0 to 1 MB, each of one type |
| GcdRefresh.Gcd.GoThroughFixed | IA32FamilyCpuBasePkg/CpuArchDxe/MemoryAttribute.c:405-453 | the coalesced writes give every existing byte below 1 MB the type of its own fixed section |
| GcdRefresh.Gcd.RefreshGcdMemoryAttributes | IA32FamilyCpuBasePkg/CpuArchDxe/MemoryAttribute.c:288-453 | every existing byte ends with its attributes outside the cache mask and its capabilities masked by the precedence rule; the others keep theirs |
| SmramDiscovery.ChooseRange | IA32FamilyCpuBasePkg/PiSmmCpuDxeSmm/PiSmmCpuDxeSmm.c:1504-1524 | the largest eligible range, the last of equal ones, or none if there is none |
| SmramDiscovery.MergeKeepsWindow | IA32FamilyCpuBasePkg/PiSmmCpuDxeSmm/PiSmmCpuDxeSmm.c:1533-1541 | a merge adds a neighbour without a gap, no 32-bit sum wraps, and what is not merged adjoins nothing |
| SmramDiscovery.FindSmramInfo | IA32FamilyCpuBasePkg/PiSmmCpuDxeSmm/PiSmmCpuDxeSmm.c:1467-1545 | terminates and returns exactly the maximal interval of SMRAM around the chosen range |
| SmramDiscovery.WrapNeverSettles | IA32FamilyCpuBasePkg/PiSmmCpuDxeSmm/PiSmmCpuDxeSmm.c:1531-1542 | where its condition fails, the loop cannot stop at the right window |
| SmramDiscovery.WrapExists | IA32FamilyCpuBasePkg/PiSmmCpuDxeSmm/PiSmmCpuDxeSmm.c:1531-1542 | a memory map on which the condition fails |
| SmmTiling.TileIs | IA32FamilyCpuBasePkg/PiSmmCpuDxeSmm/PiSmmCpuDxeSmm.c:1227-1227 | for every handler size that passes the ASSERT a tile is 2 KB |
| SmmTiling.ComputeTiles | IA32FamilyCpuBasePkg/PiSmmCpuDxeSmm/PiSmmCpuDxeSmm.c:1227-1245 | SMI handlers, descriptors and save states of all processors are pairwise disjoint and inside the allocated buffer, for any count and alignment |
| SmmTiling.BlocksApart | IA32FamilyCpuBasePkg/PiSmmCpuDxeSmm/MpService.c:1288-1293 | a handler and the descriptor of another processor in the same 2 KB never meet |
| ApicOrder.SortApicId | IA32FamilyCpuBasePkg/CpuMpDxe/MpApic.c:46-92 | an ascending permutation of the pairs, with BspNumber at the BSP's entry |
| ApicOrder.CheckApicId | IA32FamilyCpuBasePkg/CpuMpDxe/MpApic.c:100-136 | supported iff at most 255 processors with distinct 8-bit APIC IDs |
| ApicOrder.AssignPackageBsp | IA32FamilyCpuBasePkg/CpuMpDxe/MpApic.c:146-162 | a processor is marked iff no earlier one is of its package |
| ApicOrder.OnePackageBsp | IA32FamilyCpuBasePkg/CpuMpDxe/DataCollection.c:282-284 | of every package exactly one processor is marked, the one with the least APIC ID |
| CpuHotPlug.CpuService.SwitchBsp | IA32FamilyCpuBasePkg/PiSmmCpuDxeSmm/CpuService.c:201-226 | the answer for every case; only the pending operation changes and the books stay balanced |
| CpuHotPlug.CpuService.AddProcessor | IA32FamilyCpuBasePkg/PiSmmCpuDxeSmm/CpuService.c:244-293 | the first mapped empty slot gets the ID; IDs stay distinct; the books stay balanced iff nothing was pending there |
| CpuHotPlug.LoseRemoval | IA32FamilyCpuBasePkg/PiSmmCpuDxeSmm/CpuService.c:244-432 | a run in which a pending removal is lost to an addition, and after SmmCpuUpdate three processors are counted where two are present |
| CpuHotPlug.CpuService.RemoveProcessor | IA32FamilyCpuBasePkg/PiSmmCpuDxeSmm/CpuService.c:307-345 | the answer for every case; the slot is emptied, the removal pending and the books balanced |
| CpuHotPlug.CpuService.Update | IA32FamilyCpuBasePkg/PiSmmCpuDxeSmm/CpuService.c:395-432 | nothing is pending afterwards and mNumberOfCpus has changed by the pending additions and removals; it is the number of processors present iff the books were balanced before; exactly the requested ones become BSP candidates |
| FirmwareVolume.FindSection | IA32FamilyCpuBasePkg/SecCore/FindPeiCore.c:103-151 | terminates for any contents with the image of the first executable section, or none |
| FirmwareVolume.FindImageBase | IA32FamilyCpuBasePkg/SecCore/FindPeiCore.c:45-162 | terminates for any contents with the result of the search |
| FirmwareVolume.FindImageBaseIsSound | IA32FamilyCpuBasePkg/SecCore/FindPeiCore.c:155-160 | on success both bases are images of a SEC core and a PEI core file of the volume |
| FirmwareVolume.FindImageBaseSucceeds | IA32FamilyCpuBasePkg/SecCore/FindPeiCore.c:67-162 | it succeeds iff a readable beginning of the volume has a file of each kind |
| FirmwareVolume.ImagesAreInside | IA32FamilyCpuBasePkg/SecCore/FindPeiCore.c:134-150 | an image begins just past the header of an executable section, inside it, inside a file of the right type, inside the volume |

## Left out

- DxeMpSystem.MpSystem.StartupAllAPs: a call while a wake-up is left over from a timeout outside the halt loop; the blocking mode, which polls CheckAllAPs until its answer is not NotReady, and the event of the non-blocking mode; the caller's identity as BSP is taken for granted.
- DxeMpSystem.MpSystem.CheckAllAPs: elapsed time; whether the timeout has expired is a parameter, because the total time is not reset between jobs.
- DxeMpSystem.StaleCountsAsFinished: the whole run of the second job, because a StartupAllAPs with a wake-up left over is not modelled; it says what the start loop and two turns make of the AP.
- SmmRendezvousTheorems.CounterFits: a processor count that changes by hot plug during the run; mNumberOfCpus is the number of processors of the model.
- SmmProtection.SplitList: the capacity of the split buffer; the list grows as needed.
- SmmPageTables.PageTables.RestorePageTableBelow4G: the logs of other processors that share the tables. Faults caused by write protection do not occur with CR0.WP clear.
- SmmPageTableBuild.Gen4GPageTable: a stack array for which its loop does not end, where there is no result to speak of; LoopEndsIff says exactly which ones these are.
- SmmPageSetup.Prepare: the same stack arrays.
- SmmPageTables.PageTables.SetCacheability: bits other than PWT, PCD and PAT in the Cacheability argument.
- SmmTiling.ComputeTiles: a copy of the descriptor template in the save-state area and the separate GDT and TSS tables.
- FirmwareVolume.FindImageBase: reads of a header that straddles the end of the volume; bytes outside the modelled memory read as zero.
- GcdRefresh.Gcd.RefreshGcdMemoryAttributes: the masks that turn MTRR registers into base and length, and the enable bits of the MTRRs, which the code does not look at.
- The relaxed rendezvous mode (MpService.c:466-495): never taken, because NeedConfigureMtrrs is always TRUE.
- SwitchBSP, EnableDisableAP and the CheckAPsStatus timer of the DXE MP services: stack exchange in assembly, and plain dispatch.
- The X64 paths of the paging code and RestorePageTableAbove4G.
- MSRs, CPUID, APIC and interrupts: their effects appear as labelled events only.
- The SMM profile log, BTS and LBR handling, ACPI table lookup, SMBIOS records, PEI modules and exception reporting: plumbing that would only add easy members.
- SelectLfp.c, Xd.c, LimitCpuIdValue.c, Analysis.c, Setting.c, CpuS3.c and save-state access: table scans and register writes.

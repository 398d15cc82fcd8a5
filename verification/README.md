# Nachos, verified

A Dafny model of the hard parts of this Nachos kernel and of the machine it runs on, with proofs. Each module stands
for one part of the program:

| file | part |
|---|---|
| `Options`, `Bytes`, `BitMap`, `Sectors`, `FileHeader`, `OpenFile`, `Directory`, `Volume`, `Capacity`, `FileSystem` | the file system, from packed bits and whole sectors up to a map from names to bytes |
| `Memory`, `Paging`, `VirtualMemory`, `Programs` | translation, the page fault handler and its backing store, why paging cannot be seen, and what a program sees instead |
| `List`, `Synch`, `Kernel`, `Operations`, `Scheduler` | the linked list, semaphores, locks and conditions, the thread system as a transition system, and what each of its operations does |
| `WaitLists`, `Counting`, `Mailbox`, `Whale`, `Join` | protocols built on them |
| `SynchDiskProtocol`, `SynchDiskOnKernel`, `DiskTiming`, `Interrupt` | the synchronous disk, its runs on the kernel's lock and semaphore, disk timing, and the interrupt simulation |
| `Multiplier` | 64-bit multiplication in the MIPS simulator |

Code that works by changing things is modelled by classes and methods with loops: the file system's objects, the list,
the semaphore, the address space, the interrupt object with its list. Their contracts tie the new state to a function of the old one,
and what the source promises is proved about those functions. Protocols with many threads are transition systems whose
steps are the stretches of code that cannot be interrupted (`Kernel`, `Join`), or single statements (`Mailbox`, `Whale`,
`SynchDiskProtocol`); their theorems hold for every run.

What the results rest on:

- A size beyond MaxFileSize, which Allocate does not check, is one for which there is no room; sizes and positions are
  not negative; names are compared on nine characters; a new file's contents are whatever its sectors held.
- A file is not removed while it is open, or else what is written through it reaches no sector in use. That this is
  needed is `FileSystems.StaleWriteHitsAnotherFile`, and that it is the exact condition
  `Volumes.WritesAreHarmlessIffSafe`.
- The backing store's file is created at its full size, of at most MaxFileSize bytes, and opened; the constructor ignores
  what Create returns (nachos/code/userprog/backingstore.cc:18-21), and without room it would go on with a null file. The
  store's table starts all false, which the constructor leaves open (nachos/code/userprog/backingstore.cc:11). The fault
  handler is one step. If no frame is free, the faulting program has a page in memory; otherwise the source would look
  for a victim for ever.
- If a program has both code and data, code ends at or before data begins; the segments that it has are in the file and
  at addresses that are not negative. The header is in the machine's byte order. Of a segment that the program does not
  have only the size is known, as nachos/code/bin/coff2noff.c:156-158 leaves it.
- A new thread's name differs from those of all threads that have not finished or still hold a lock, since a lock knows
  its holder by name (`Kernel.OnlyNamesakesShareALock` says exactly what happens otherwise), and a thread is forked once.
- A lock acquired several times is given back by one Release (`Kernel.OneReleaseUndoesAllAcquires`); to be inside a
  lock means to have acquired it since the last Release.
- Handlers schedule at least one tick ahead and do not turn interrupts on, as the source asserts.
- Clocks and counts are integers without bound.

Where code and comments disagree the code is followed. nachos/code/userprog/README.VM:38 says that an evicted page's
frame number is reset; it is not, and nothing depends on it. Some pages are neither loaded nor zeroed, such as the one
after a segment that ends on a page boundary, or one that an absent segment's address happens to lie on
(`Paging.LeftAsItWasExactly`). An idle machine can leave a timer interrupt due (`Interrupts.IdleWaits` says when).
Join's early return is dead code (`Joining.NeverReturnsAtOnce`).

To verify everything: `dafny verify dfyconfig.toml`.

## Model

| member | source | states |
|---|---|---|
| `FileSystems.RunRefinesMap` | nachos/code/filesys/filesys.cc:80-288 | over any run of creates, removes and writes through headers fetched at an earlier open, of files not removed since, the disk stays consistent (the map marks exactly the metadata sectors and each listed file's header and data, all disjoint, names unique) and every step is the same step on a plain map from names to bytes: a write rewrites its own file and leaves every other alone, and a Create adds its name exactly if, by the map, the name is new, there are fewer than ten files, and the sectors that their lengths leave are enough |
| `FileSystems.StepRefines` | nachos/code/filesys/filesys.cc:174-288 | one operation, a write through any header included as long as the write is safe, keeps the invariant and is one step of the map |
| `FileSystems.OpenFilesStayCurrent` | nachos/code/filesys/openfile.cc:30-35 | over any run, the header fetched at open stays the file's header on disk as long as the file is not removed, whatever else is created, removed or written |
| `FileSystems.SafeRunRefinesMap` | nachos/code/filesys/openfile.cc:146-186 | the same run theorem with writes through removed files, as long as they reach no sector in use; those change nothing on the map |
| `FileSystems.StaleWriteHitsAnotherFile` | nachos/code/filesys/filesys.cc:174-288 | the run that fails: open a file, remove it, create another, write through the open file; the byte becomes the first byte of the other file |
| `FileSystems.WriteThroughRemovedFile` | nachos/code/filesys/filesys.cc:174-288 | makes that run happen on any volume without files, such as a newly formatted one |
| `FileSystems.FileSystem.WriteAt` | nachos/code/filesys/openfile.cc:146-186 | a write through a file opened at any time before writes exactly the clipped range of its sectors; if it is safe, it keeps the volume valid and the file listed as it was, and is one step of the run |
| `FileSystems.FileSystem.constructor` | nachos/code/filesys/filesys.cc:80-143 | formatting leaves a consistent disk that means the empty map, with both metadata files open; opening an old disk changes nothing |
| `FileSystems.FileSystem.Create` | nachos/code/filesys/filesys.cc:174-215 | succeeds exactly when the name is absent, a slot is free and 1 + ceil(size / SectorSize) sectors are clear, which the files' names and lengths decide; on failure the whole disk is unchanged; keeps the volume valid and is one step of the run |
| `FileSystems.FileSystem.Open` | nachos/code/filesys/filesys.cc:227-241 | null exactly for absent names; otherwise the opened file's bytes are those the volume maps the name to, and its header is the one the name is listed with |
| `FileSystems.FileSystem.Remove` | nachos/code/filesys/filesys.cc:257-288 | succeeds exactly for listed names; on failure the disk is unchanged; keeps the volume valid and is one step of the run |
| `FileSystems.CreateCondition` | nachos/code/filesys/filesys.cc:186-202 | the tests made one after another, on a map that changes in between, decide exactly the one-line condition for success |
| `FileSystems.CreateConditionOnFiles` | nachos/code/filesys/filesys.cc:186-202 | whether Create succeeds depends on nothing but the names and lengths of the files there are |
| `Capacity.RoomIsWhatFilesLeave` | nachos/code/filesys/filehdr.cc:41-52 | the clear sectors number 1024 less five less one and ceil(length / SectorSize) for each file, and a directory slot is free exactly if there are fewer files than slots |
| `FileSystems.ListedSectorsAreMarked` | nachos/code/filesys/filehdr.cc:61-68 | on a consistent disk every sector that Remove frees is marked, so the assertion in Deallocate never fires |
| `FileSystems.PicksInOrder` | nachos/code/filesys/filesys.cc:87-107 | formatting's allocations take the lowest sectors in order, which fixes where the metadata lies |
| `FileSystems.FreshlyFormatted` | nachos/code/filesys/filesys.cc:86-130 | the disk that formatting writes satisfies the invariant and has no files |
| `FileSystems.FileSystem.Flush` | nachos/code/filesys/filesys.cc:205-210 | writing both metadata files back leaves exactly the table and the bits in memory, and no sector of a file changed |
| `Volumes.CreateRefines` | nachos/code/filesys/filesys.cc:174-215 | a successful Create keeps the disk consistent and adds exactly one file of the given size |
| `Volumes.RemoveRefines` | nachos/code/filesys/filesys.cc:257-288 | Remove keeps the disk consistent and drops exactly the named file |
| `Volumes.WriteRefines` | nachos/code/filesys/openfile.cc:146-186 | writing through the header a file is listed with rewrites that file alone and touches neither map nor directory |
| `Volumes.SafeWriteRefines` | nachos/code/filesys/openfile.cc:146-186 | a write through any header fetched earlier: if it is still the listed one, that file is rewritten; if no sector written is marked, no file changes |
| `Volumes.WritesAreHarmlessIffSafe` | nachos/code/filesys/openfile.cc:146-186 | a write through a header fetched earlier leaves the metadata and every other file alone, whatever the bytes, if and only if the file is still listed with that header or no sector written is marked |
| `Volumes.RemoveUndoesCreate` | nachos/code/filesys/filesys.cc:174-288 | Create followed by Remove gives back the same bitmap and the same files |
| `Volumes.NewSectorsAreFree` | nachos/code/filesys/filehdr.cc:41-52 | what Create takes belongs to no other file and to no metadata |
| `FileHeaders.FileHeader.Allocate` | nachos/code/filesys/filehdr.cc:41-52 | takes exactly ceil(size / SectorSize) distinct clear sectors, or reports failure, for any size, without taking any when too few are clear |
| `FileHeaders.FileHeader.Deallocate` | nachos/code/filesys/filehdr.cc:61-68 | clears exactly the file's sectors |
| `FileHeaders.FileHeader.FetchFrom` | nachos/code/filesys/filehdr.cc:77-81 | the header in memory is the one whose encoding the sector holds |
| `FileHeaders.FileHeader.WriteBack` | nachos/code/filesys/filehdr.cc:90-94 | the sector holds the header's encoding; no other sector changes |
| `FileHeaders.DecodeEncodeHeader` | nachos/code/filesys/filehdr.cc:77-94 | reading a stored header back gives the header |
| `FileHeaders.HeaderLayout` | nachos/code/filesys/filehdr.h:60-63 | the words of a header's sector: length, number of sectors, and the sectors in order |
| `FileHeaders.AllocationCounts` | nachos/code/filesys/filehdr.cc:41-52 | allocation lowers the number of clear sectors by the number taken |
| `FileHeaders.DeallocateUndoesAllocate` | nachos/code/filesys/filehdr.cc:41-68 | deallocating what was allocated restores the bitmap |
| `OpenFiles.OpenFile.ReadAt` | nachos/code/filesys/openfile.cc:116-144 | returns the clipped count and exactly that slice of the file's bytes, for any position and length |
| `OpenFiles.OpenFile.WriteAt` | nachos/code/filesys/openfile.cc:146-186 | changes exactly the clipped range of the file's bytes, aligned or not, and no sector but those the range lies on |
| `OpenFiles.OpenFile.Read` | nachos/code/filesys/openfile.cc:74-80 | reads at the seek position and advances it by what was read |
| `OpenFiles.OpenFile.Write` | nachos/code/filesys/openfile.cc:82-88 | writes at the seek position and advances it by what was written |
| `OpenFiles.ChunkedWrite` | nachos/code/filesys/openfile.cc:82-88 | any chunking of a sequence of Writes leaves the bytes of one WriteAt of the whole |
| `OpenFiles.ChunkedRead` | nachos/code/filesys/openfile.cc:74-80 | any chunking of Reads returns the bytes of one ReadAt of the whole |
| `OpenFiles.WriteThenRead` | nachos/code/filesys/openfile.cc:74-186 | whatever the two chunkings, reading back what was written gives the same bytes |
| `Directories.Directory.FindIndex` | nachos/code/filesys/directory.cc:90-97 | the first entry in use with the name's key, or -1 |
| `Directories.Directory.Add` | nachos/code/filesys/directory.cc:129-143 | fails exactly if the name is listed or no slot is free; otherwise the first free slot, and only it, lists the name and sector |
| `Directories.Directory.Remove` | nachos/code/filesys/directory.cc:153-162 | frees exactly the named entry, or reports that there is none |
| `Directories.NameMatchesIffSameKey` | nachos/code/filesys/directory.cc:90-97 | strncmp on nine characters holds exactly if the first nine characters up to a NUL agree |
| `Directories.AddedEntry` | nachos/code/filesys/directory.cc:135-139 | the raw entry that Add writes, padding included, is in use and has the name's key and the sector |
| `Directories.EntryLayout` | nachos/code/filesys/directory.h:33-39 | the bytes of an entry: the flag, the sector, and the name, padded with zeros |
| `Directories.UnflattenFlatten` | nachos/code/filesys/directory.cc:63-80 | a table written to its file and fetched back is the same table |
| `BitMaps.BitMap.Mark` | nachos/code/userprog/bitmap.cc:46-51 | sets the one bit in the packed words and no other |
| `BitMaps.BitMap.Clear` | nachos/code/userprog/bitmap.cc:60-65 | clears the one bit and no other |
| `BitMaps.BitMap.Find` | nachos/code/userprog/bitmap.cc:94-103 | returns and marks the lowest clear bit, -1 exactly if all are set |
| `BitMaps.BitMap.NumClear` | nachos/code/userprog/bitmap.cc:111-119 | the number of clear bits |
| `BitMaps.BitAfterSet` | nachos/code/userprog/bitmap.cc:50 | OR with a one-bit mask, read bit by bit |
| `BitMaps.BitAfterClear` | nachos/code/userprog/bitmap.cc:64 | AND with the complement of a one-bit mask, read bit by bit |
| `BitMaps.CountAfterMark` | nachos/code/userprog/bitmap.cc:94-119 | marking a clear bit lowers the count by one |
| `VirtualMemory.PagingIsInvisible` | nachos/code/userprog/addrspace.cc:330-428 | in every reachable state of any number of programs, with any victims, a translated read of bytes that were loaded, zero-filled or written yields what a flat never-evicted memory holds |
| `VirtualMemory.NextKeepsInv` | nachos/code/userprog/addrspace.cc:231-428 | every start, read, write, fault and exit keeps frames exclusive and every clean page equal to its backing copy or initial image |
| `VirtualMemory.FramesAreExclusive` | nachos/code/machine/translate.cc:142-262 | in every reachable state the frame bitmap marks exactly the frames of valid entries, no two share one, and a write changes no byte outside its own page's frame |
| `VirtualMemory.FaultKeepsInv` | nachos/code/userprog/addrspace.cc:330-428 | the fault handler, whichever page it evicts, keeps all of that for every program |
| `VirtualMemory.FaultsAreResolved` | nachos/code/userprog/exception.cc:282-291 | after the handler, with the valid bit set, the faulting access succeeds unless it wrote to a read-only page |
| `VirtualMemory.EvictedAgrees` | nachos/code/userprog/addrspace.cc:342-353 | eviction loses nothing: a dirty page is in the store, a clean one already equals what is behind it |
| `VirtualMemory.InstalledAgrees` | nachos/code/userprog/backingstore.cc:44-50 | a page that comes in, from the store or for the first time, holds what flat memory says |
| `VirtualMemory.ExitFrames` | nachos/code/userprog/addrspace.cc:231-241 | exit frees exactly the frames of the program's valid pages |
| `VirtualMemory.FlatIsFlat` | nachos/code/machine/translate.cc:142-175 | faults, evictions and other programs do not touch a program's flat memory |
| `Programs.LastWriteIsRead` | nachos/code/machine/translate.cc:91-175 | after any run in which a program does not write over what it has written, however often the page is evicted and whatever other programs do, a read that goes through finds the bytes of the value written |
| `Programs.SegmentIsRead` | nachos/code/userprog/addrspace.cc:363-427 | likewise for what the program was loaded with: until it writes over them, a program reads the bytes of its segments as the file has them |
| `Programs.AccessesAreDecided` | nachos/code/machine/translate.cc:192-262 | in every reachable state only misaligned addresses and those beyond the space give an address error, and no access a bus error; any other access goes through, is a write to a read-only page, or faults |
| `Programs.FaultingAccessesGoThrough` | nachos/code/userprog/exception.cc:282-291 | and after the handler, whichever page it evicts, a faulting access goes through or is refused as a write to a read-only page |
| `Programs.ProgramsCanAct` | nachos/code/userprog/addrspace.cc:78-241 | in every reachable state any new program can start, and any running one read, write and exit |
| `Programs.SpacesHoldTheProgram` | nachos/code/userprog/addrspace.cc:93-96 | in every reachable state every aligned address below the sum of the segments' sizes and 1024 is in the space, and none is that is a page beyond |
| `Programs.SegmentsAreInSpace` | nachos/code/userprog/addrspace.cc:93-96 | if the segments lie where their sizes add up, a new program can rely on every byte of them |
| `Programs.StackPointerIsInSpace` | nachos/code/userprog/addrspace.cc:268-271 | the stack starts word-aligned, sixteen bytes below the end of the space, whatever the program |
| `Programs.FlatIsTheImage` | nachos/code/userprog/addrspace.cc:363-427 | a new program can rely on every byte of its segments and on zeros wherever a page is in no segment's range |
| `Programs.WhatTheHandlerDoes` | nachos/code/userprog/addrspace.cc:330-361 | the faulted page has the lowest free frame or the victim's; the victim is invalid and clean; no other entry and no other frame changes |
| `Programs.WhatTheHandlerStores` | nachos/code/userprog/backingstore.cc:37-42 | the store gets the victim's page, in its place, exactly if it was dirty, and is otherwise unchanged |
| `Programs.WhatTheHandlerLoads` | nachos/code/userprog/addrspace.cc:363-427 | the frame holds the page as the store has it, or else the executable, and no other byte of memory changes |
| `Programs.AccessesAreMarked` | nachos/code/machine/translate.cc:255-257 | an access that goes through marks its page used, and dirty if it writes, and changes no other entry |
| `Paging.FirstContentsAreTheImage` | nachos/code/userprog/addrspace.cc:363-427 | first-time page-in puts every segment byte at its address with its file value, whatever the alignment, despite first pages being over-read, and whatever the header says of segments the program does not have |
| `Paging.ZeroFilledExactlyOutside` | nachos/code/userprog/addrspace.cc:364-426 | a page is zero-filled regardless of file and frame exactly if it is outside both inclusive page ranges |
| `Paging.LeftAsItWasExactly` | nachos/code/userprog/addrspace.cc:364-426 | a page's frame keeps its old contents, for every file, exactly if the page is in a segment's inclusive range and yet nothing is read: the segment is absent or ends where the page begins |
| `Paging.BoundaryPageIsLeftAsItWas` | nachos/code/userprog/addrspace.cc:366-394 | a segment that ends on a page boundary leaves the next page neither loaded nor zeroed |
| `Paging.SegmentLoaded` | nachos/code/userprog/addrspace.cc:376-420 | each of the three cases of loading places the segment's bytes |
| `Paging.AddrSpace.PageFaultHandler` | nachos/code/userprog/addrspace.cc:330-428 | page table, store, memory and frame bitmap change exactly as the handler's specification says, for some valid victim |
| `Paging.AddrSpace.Destroy` | nachos/code/userprog/addrspace.cc:231-241 | frees exactly the valid pages' frames |
| `Paging.AddrSpace.constructor` | nachos/code/userprog/addrspace.cc:78-138 | every entry numbered, invalid and clean; frame numbers arbitrary |
| `Paging.PagesHoldTheProgram` | nachos/code/userprog/addrspace.cc:93-96 | the pages hold the segments and 1024 bytes of stack, and there is less than a page to spare |
| `Paging.StackIsApart` | nachos/code/userprog/addrspace.cc:93-96 | if the segments lie in the part that their sizes add up to, none of them reaches into the last 1024 bytes |
| `Paging.MemoryManager.AllocPage` | nachos/code/userprog/memorymanager.cc:19-27 | the lowest free frame, marked, or -1 if none, although frame 0 is marked by Find alone |
| `Paging.BackingStore.PageOut` | nachos/code/userprog/backingstore.cc:37-42 | the page's frame is written to its place in the store and nowhere else, and recorded |
| `Paging.BackingStore.PageIn` | nachos/code/userprog/backingstore.cc:44-50 | reads exactly the recorded pages back |
| `Memory.Machine.Translate` | nachos/code/machine/translate.cc:192-262 | which exception is raised in which case, and use and dirty bits set only on success |
| `Memory.Machine.ReadMem` | nachos/code/machine/translate.cc:91-127 | the value in the addressed bytes, a single byte sign-extended |
| `Memory.Machine.WriteMem` | nachos/code/machine/translate.cc:142-175 | exactly the addressed bytes change, or none |
| `Memory.AccessStaysInFrame` | nachos/code/machine/translate.cc:202-260 | a translated access never crosses its frame, so the final assertion holds |
| `Memory.OnlyBadAddressesAreRefused` | nachos/code/machine/translate.cc:202-222 | an address error comes exactly for an address that is not a multiple of the size or not below the end of the table's pages |
| `Memory.PageDecides` | nachos/code/machine/translate.cc:222-260 | for any other address, the page that it lies on decides exactly which of the four other outcomes there is, and the physical address lies as far into its frame as the virtual one into the page |
| `Memory.MarkIsUseAndDirty` | nachos/code/machine/translate.cc:255-257 | a translation sets the use bit of one entry, and its dirty bit if it writes, and changes nothing else |
| `Memory.ReadBackWord` | nachos/code/machine/translate.cc:91-175 | a word written and read is the same word |
| `Memory.ReadBackShort` | nachos/code/machine/translate.cc:91-175 | a half word written and read is the value modulo 2^16 |
| `Memory.ReadBackByte` | nachos/code/machine/translate.cc:91-175 | a byte written and read is the value as a signed char |
| `Memory.WordsAreLittleEndian` | nachos/code/machine/translate.cc:41-53 | with the shifts and masks, simulated words are little-endian on a host of either order |
| `Memory.ShortsAreLittleEndian` | nachos/code/machine/translate.cc:55-65 | likewise for half words |
| `Kernel.ReachableIsSafe` | nachos/code/threads/synch.cc:62-288 | in every run of any number of threads status, queues and processor agree, each forked unfinished thread is running or exactly once on exactly one queue, at most one thread is inside a lock (has acquired it since the last Release), and a semaphore's value is its initial value plus Vs minus Ps, not negative, and at most the woken threads while anyone queues; a free lock with waiters has a woken thread on its way |
| `Kernel.NoWakeupIsLost` | nachos/code/threads/synch.cc:62-164 | when nothing can run, semaphores with waiters are 0 and locks with waiters are held by a thread that cannot run |
| `Kernel.NextKeepsInv` | nachos/code/threads/synch.cc:62-288 | every operation keeps places, counts, lock ownership, and that left-over units and free locks have a woken thread on the way |
| `Kernel.LocksAndSemaphoresAreAsAssumed` | nachos/code/threads/synch.cc:62-164 | at every step of every run a lock passes only from nobody to the running thread or back, and a semaphore gains a unit or gives one away that it has, which is what the protocol modules assume |
| `Kernel.ExactlyOnePlace` | nachos/code/threads/scheduler.cc:53-141 | status, queues and processor agree on where a thread is, and it is there once |
| `Kernel.WaitIsOneStep` | nachos/code/threads/synch.cc:231-243 | Wait leaves the lock free and the caller asleep on the condition in one uninterrupted step |
| `Kernel.ReturningMeansHolding` | nachos/code/threads/synch.cc:121-134 | whoever gets past Acquire's loop, or out of Wait, holds the lock, and does so exactly if it was free |
| `Kernel.ReturningFromPTakesAUnit` | nachos/code/threads/synch.cc:62-75 | P returns exactly if there was a unit and takes exactly one; otherwise the caller sleeps on the semaphore's queue |
| `Kernel.SignalWakesTheFirst` | nachos/code/threads/synch.cc:253-267 | Signal makes the first waiter ready and touches no other thread |
| `Kernel.YieldHandsOver` | nachos/code/threads/thread.cc:269-285 | the front of the ready list runs and the caller is queued by priority; alone, the caller goes on |
| `Kernel.BroadcastWakesAll` | nachos/code/threads/synch.cc:276-288 | every waiter is ready afterwards, and none that was ready is lost |
| `Kernel.BestPriorityRuns` | nachos/code/threads/scheduler.cc:72-78 | the dispatched thread had, when it was queued, the best priority of those on the ready list when they were queued; a later setPriority does not move a queued thread |
| `Kernel.OnlyNamesakesShareALock` | nachos/code/threads/synch.cc:121-243 | while a thread is inside a lock, Acquire, called or at the end of Wait, breaks exclusion exactly if the caller has the holder's name |
| `Kernel.NamesakesBreakExclusion` | nachos/code/threads/synch.cc:170-201 | a run in which two threads of one name are inside one lock |
| `Kernel.OneReleaseUndoesAllAcquires` | nachos/code/threads/synch.cc:121-164 | Acquire by the holder changes nothing, so that one Release leaves the lock free with nobody inside |
| `Operations.WhatPDoes` | nachos/code/threads/synch.cc:62-75 | P on any semaphore, called or resumed after a sleep, takes a unit and goes on exactly if there is one, and otherwise sleeps on its queue and hands the processor to the front of the ready list; no other thread changes but that one |
| `Operations.WhatVDoes` | nachos/code/threads/synch.cc:84-95 | V, by a thread or a handler, adds a unit and makes the first waiter ready; nobody else changes |
| `Operations.WhatAcquireDoes` | nachos/code/threads/synch.cc:121-134 | Acquire, called, resumed or at the end of Wait, takes a free lock, leaves one held under the caller's name, and sleeps on any other |
| `Operations.WhatReleaseDoes` | nachos/code/threads/synch.cc:141-164 | the lock is free, the caller outside, the first waiter ready, and nobody else changed |
| `Operations.WhatWaitDoes` | nachos/code/threads/synch.cc:231-243 | the caller sleeps in its place on the condition, the lock is free with its first waiter ready, and the processor goes to the front of the ready list as it then is |
| `Operations.WhatSignalDoes` | nachos/code/threads/synch.cc:253-267 | the first waiter leaves the condition and becomes ready; nobody else changes |
| `Operations.WhatBroadcastDoes` | nachos/code/threads/synch.cc:276-288 | exactly the waiters become ready |
| `Operations.WhatYieldDoes` | nachos/code/threads/thread.cc:269-285 | the caller is queued as ready and the front of the list runs, or nothing changes |
| `Operations.WhatFinishDoes` | nachos/code/threads/thread.cc:210-214 | the caller is finished, off the processor and on no queue; the front of the ready list runs, or nobody if it is empty |
| `Operations.FinishIsForGood` | nachos/code/threads/thread.cc:210-214 | in every run after that the thread never runs and is never ready or waiting |
| `Operations.WhatCreateDoes` | nachos/code/threads/thread.cc:37-53 | a new thread is on no queue, holds nothing, and nothing else changes |
| `Operations.WhatForkDoes` | nachos/code/threads/thread.cc:127-138 | the forked thread is ready in its place by priority; nobody else changes |
| `Operations.WhatSetPriorityDoes` | nachos/code/threads/thread.cc:293-295 | the thread's key is the negative of the priority, and nobody moves |
| `Operations.HigherPriorityRunsFirst` | nachos/code/threads/thread.cc:293-295 | of two new threads the one given the higher priority is ahead on the ready list, in whichever order they are forked |
| `Operations.NobodyReadyIsLeftIdle` | nachos/code/threads/thread.cc:324-342 | no operation of a thread leaves the processor idle while somebody is ready |
| `Operations.WhatCanGoOn` | nachos/code/threads/synch.cc:62-134 | in every state the invariant allows, a running thread can go on with the operation it slept in, an idle processor can look at the ready list, and a handler can do V |
| `Operations.WhatCanBeCalled` | nachos/code/threads/synch.cc:62-288 | and one in its own code can call any operation, with the lock held where the source asserts it |
| `Operations.WhatThreadsCanDo` | nachos/code/threads/thread.cc:127-342 | likewise yield, finish, and create, fork and set the priority of a thread |
| `Scheduling.YieldOrder` | nachos/code/threads/thread.cc:269-285 | taking the next thread off the list before queueing the caller is the kernel's Yield step |
| `Scheduling.Scheduler.ReadyToRun` | nachos/code/threads/scheduler.cc:53-62 | marks the thread ready and queues it by priority behind its equals |
| `Scheduling.Scheduler.FindNextToRun` | nachos/code/threads/scheduler.cc:72-78 | takes exactly the front of the ready list off |
| `Scheduling.Scheduler.Yield` | nachos/code/threads/thread.cc:269-285 | gives the processor to the front of the list, or changes nothing |
| `Scheduling.Scheduler.Sleep` | nachos/code/threads/thread.cc:324-342 | blocks the caller and dispatches the next thread, or idles |
| `Synch.Semaphore.Pass` | nachos/code/threads/synch.cc:62-75 | one turn of P's loop: takes a unit or queues the caller |
| `Synch.Semaphore.V` | nachos/code/threads/synch.cc:84-95 | adds a unit and takes the first waiter off the queue |
| `Synch.Lock.IsHeldByCurrentThread` | nachos/code/threads/synch.cc:170-201 | true exactly if the lock is held under a name equal to the caller's |
| `Synch.Lock.Pass` | nachos/code/threads/synch.cc:121-134 | one turn of Acquire's loop |
| `Synch.Lock.Release` | nachos/code/threads/synch.cc:141-164 | frees the lock and takes the first waiter off |
| `Synch.Condition.Enlist` | nachos/code/threads/synch.cc:231-239 | queues the caller and releases the lock |
| `Synch.Condition.Broadcast` | nachos/code/threads/synch.cc:276-288 | takes every waiter off, in order |
| `Lists.List.SortedInsert` | nachos/code/threads/list.cc:178-202 | relinks the list so that its contents are the sorted insertion, behind equals |
| `Lists.List.SortedRemove` | nachos/code/threads/list.cc:217-237 | takes exactly the front element off, if there is one |
| `Lists.List.Append` | nachos/code/threads/list.cc:76-88 | adds at the end |
| `Lists.InsertionKeepsOrder` | nachos/code/threads/list.cc:178-202 | insertion keeps the order, adds one element, and puts it behind its equals |
| `Mailbox.MessagesArriveInOrder` | nachos/code/threads/synch.cc:324-393 | with any number of senders and receivers the i-th message picked up is the i-th dropped off, each once; none is overwritten unread; nobody sleeps on bufferCV |
| `Mailbox.GatePairsExactly` | nachos/code/threads/synch.cc:328-371 | whenever the gate is empty, abs(numItems) participants wait, all of one kind, and as many senders as receivers were let through |
| `Mailbox.OnlyTheUnpairedWait` | nachos/code/threads/synch.cc:324-393 | when no one can go on, min(senders, receivers) messages were delivered and exactly the surplus waits |
| `Mailbox.EveryScheduleEnds` | nachos/code/threads/synch.cc:324-393 | no run is longer than 14 steps for each participant, so that every schedule comes to such an end |
| `Mailbox.NextKeepsInv` | nachos/code/threads/synch.cc:324-393 | every statement of Send and Receive keeps the gate's balance and the single token |
| `Mailbox.SomebodyWaits` | nachos/code/threads/synch.cc:334-336 | a participant that need not wait always finds a partner to signal |
| `Mailbox.InnerWait` | nachos/code/threads/synch.cc:340-393 | the wait on bufferCV, as the source has it although no run comes to it: it gives up the lock, a signal wakes the first waiter, and that takes the lock again when it is free |
| `Whales.TripletsMatchExactly` | nachos/code/threads/Whale.cc:24-89 | in every run M - t, F - t and K - t whales wait, t of each kind are released, made plus pending is 3t, and the counter is t exactly when none is pending |
| `Whales.OnlyTheSurplusWaits` | nachos/code/threads/Whale.cc:24-89 | when no whale can go on, min(M, F, K) triplets have left and are counted, and only the surplus waits |
| `Whales.EveryScheduleEnds` | nachos/code/threads/Whale.cc:24-89 | no run is longer than eight steps for each whale |
| `Whales.NextKeepsInv` | nachos/code/threads/Whale.cc:24-89 | every statement keeps that balance |
| `Whales.PartnersWait` | nachos/code/threads/Whale.cc:31-37 | a whale that need not wait finds one of each other kind waiting |
| `Joining.JoinIsSafe` | nachos/code/threads/thread.cc:183-249 | Join returns only after the child set threadFinished, the child leaves only after finishedJoining, and they never sleep at the same time |
| `Joining.JoinCompletes` | nachos/code/threads/thread.cc:183-249 | every schedule ends within 17 steps, with both through if Join was called, or else with the failed assertion in Finish |
| `Joining.BothGetThrough` | nachos/code/threads/thread.cc:184-249 | a schedule in which both threads sleep on the way and both get through |
| `Joining.AbortedExactlyWhenTheChildBegins` | nachos/code/threads/thread.cc:184-194 | the assertion in Finish fails exactly in the schedules that the child begins |
| `Joining.NeverReturnsAtOnce` | nachos/code/threads/thread.cc:230-235 | the early return of Join is never taken |
| `Joining.OnlyReturningAtOnceLosesTheChild` | nachos/code/threads/thread.cc:230-248 | if the call could be interrupted, Join returns at once and a child is lost exactly in the schedules where the child takes two steps between the halves of the call |
| `Joining.SplittingTheCallLosesTheChild` | nachos/code/threads/thread.cc:230-235 | a schedule, with the call interrupted, that loses the child |
| `SynchDiskProtocol.OneRequestAtATime` | nachos/code/filesys/synchdisk.cc:72-109 | with any number of callers the raw disk is never asked while active, the semaphore is 0 while the lock is free, and a call gets on only after its own interrupt |
| `SynchDiskProtocol.ActiveDiskIsNotAsked` | nachos/code/machine/disk.cc:117-168 | a request fails the raw disk's assertion exactly if the disk is active, so that OneRequestAtATime says that no request in any run does |
| `SynchDiskProtocol.CallsAreAtomic` | nachos/code/filesys/synchdisk.cc:72-97 | when a call is about to return its sector still holds what was read or written |
| `SynchDiskProtocol.CallsAreSequential` | nachos/code/machine/disk.cc:117-168 | the results of overlapping calls are those of some order of them on a plain store, each call once |
| `SynchDiskProtocol.LogKeepsRealTime` | nachos/code/filesys/synchdisk.cc:72-97 | in that order a call that had returned before another began comes earlier |
| `SynchDiskProtocol.EveryCallReturns` | nachos/code/filesys/synchdisk.cc:72-109 | when nothing can go on and no interrupt is due, every call has returned |
| `SynchDiskProtocol.EveryScheduleEnds` | nachos/code/filesys/synchdisk.cc:72-109 | no run is longer than six steps for each call, its interrupt included |
| `SynchDiskOnKernel.KernelRunsAreProtocolRuns` | nachos/code/filesys/synchdisk.cc:72-109 | any run of the kernel's threads, any of which call the disk as often as they like between whatever else they and the others do, is a run of the protocol, with the call of the kernel's own lock holder and the kernel's semaphore |
| `SynchDiskOnKernel.CallsOnKernelAreSequential` | nachos/code/filesys/synchdisk.cc:72-109 | so on the kernel, too, overlapping calls have the results of some order of them and the raw disk is never asked while active |
| `SynchDiskOnKernel.CallsOnKernelKeepRealTime` | nachos/code/filesys/synchdisk.cc:72-97 | in that order a call that had returned before another of the same thread or of another began comes earlier |
| `SynchDiskOnKernel.KernelTakesItsSteps` | nachos/code/threads/synch.cc:62-164 | whatever its threads do about the disk, the kernel moves by its own steps alone |
| `SynchDiskOnKernel.CallBegins` | nachos/code/filesys/synchdisk.cc:72-97 | a thread that calls has that call, with its request, ahead of it; no other call changes |
| `SynchDiskOnKernel.ReturnedThreadsCallAgain` | nachos/code/filesys/openfile.cc:116-186 | when a call returns, its thread can make another at once |
| `SynchDiskOnKernel.CallsCanGoOn` | nachos/code/filesys/synchdisk.cc:72-97 | a running thread in a call can take the call's next step |
| `Interrupts.DrainedInTurn` | nachos/code/machine/interrupt.cc:176-177 | a drain takes no time, fires in order of due time, none early, and stops with nothing left that it could fire |
| `Interrupts.TickDrains` | nachos/code/machine/interrupt.cc:151-186 | a tick leaves nothing due, moves the clock by the tick alone and accounts for it |
| `Interrupts.TickTakes` | nachos/code/machine/interrupt.cc:157-163 | a tick adds 10 to the total and to system time in the kernel, and 1 to the total and to user time otherwise |
| `Interrupts.TickYields` | nachos/code/machine/interrupt.cc:176-186 | after a tick the interrupted thread must yield exactly if a switch had been asked for before or one of the handlers that the tick runs asks for it; the request is then cleared |
| `Interrupts.WaitingIsIdle` | nachos/code/machine/interrupt.cc:319-321 | waiting for an interrupt is charged as idle time and nothing else |
| `Interrupts.IdleWaits` | nachos/code/machine/interrupt.cc:217-241 | Idle halts exactly if nothing or only the timer is pending; otherwise the clock goes to the first interrupt's time, in idle time alone, something fires, and something stays due exactly if, before the call, the timer's interrupt comes last, is due when the first is, and no handler before it schedules anything |
| `Interrupts.IdleCanLeaveTheTimerDue` | nachos/code/machine/interrupt.cc:328-332 | a disk and a timer interrupt at one time, after which an idle machine leaves the timer's due |
| `Interrupts.IdleLeavesTheTimerDueInARun` | nachos/code/machine/interrupt.cc:217-332 | a run from the start that leads there: both interrupts asked for at once, for one time |
| `Interrupts.DrainLeavesTimer` | nachos/code/machine/interrupt.cc:222-223 | a drain of an idle machine leaves the timer's interrupt due exactly under that condition on the state before it |
| `Interrupts.RunsFireInDueOrder` | nachos/code/machine/interrupt.cc:115-349 | in every run from the start, whatever is scheduled, ticked, waited for and handled, the clock is the sum of its idle, system and user time, nothing is fired early, and interrupts are fired in the order of the times they are due, at times that never go back |
| `Interrupts.CheckFires` | nachos/code/machine/interrupt.cc:302-349 | each firing uses up one due interrupt, which is why the drain ends |
| `Interrupts.FiringConserves` | nachos/code/machine/interrupt.cc:312-348 | no interrupt is lost or invented: firing takes the first off and adds exactly what its handler schedules |
| `Interrupts.HandlersAddTheirRequests` | nachos/code/machine/interrupt.cc:199-287 | a handler adds exactly what it schedules to what is pending |
| `Interrupts.HandlersAskForSwitches` | nachos/code/machine/interrupt.cc:199-204 | a switch is asked for exactly if a handler does so |
| `Interrupts.CheckPutsBack` | nachos/code/machine/interrupt.cc:322-332 | a refused interrupt goes back; only the order among equal times can change |
| `Interrupts.RefusedGoesBehindEquals` | nachos/code/machine/interrupt.cc:322-332 | a refused interrupt ends up behind all others of the same time, and no other moves |
| `Interrupts.Interrupt.CheckIfDue` | nachos/code/machine/interrupt.cc:302-349 | on the linked list, does what its specification on values says, for any handlers |
| `Interrupts.Interrupt.OneTick` | nachos/code/machine/interrupt.cc:151-186 | likewise, with the drain loop proved to end |
| `Interrupts.Interrupt.SetLevel` | nachos/code/machine/interrupt.cc:115-128 | ticks exactly when interrupts go from off to on |
| `Interrupts.Interrupt.Idle` | nachos/code/machine/interrupt.cc:217-241 | likewise for idling |
| `Interrupts.Interrupt.Schedule` | nachos/code/machine/interrupt.cc:271-287 | queues the interrupt at its time on the linked list, behind those of the same time |
| `DiskTiming.Disk.ComputeLatency` | nachos/code/machine/disk.cc:234-255 | a buffered read costs one transfer; any other request ends at the first moment the sector has passed the head after the seek; between RotationTime and seek plus 33 rotations |
| `DiskTiming.Disk.Request` | nachos/code/machine/disk.cc:117-155 | likewise, and when the interrupt comes the sector has passed since the buffer was started; bufferInit stays a multiple of RotationTime |
| `DiskTiming.Disk.ModuloDiff` | nachos/code/machine/disk.cc:204-211 | the first slot from a position on in which a sector passes |
| `DiskTiming.FirstPassage` | nachos/code/machine/disk.cc:181-251 | the computed moment is the least at which the sector has passed |
| `DiskTiming.SeeksAddUp` | nachos/code/machine/disk.cc:182-195 | a seek takes no time exactly on one track, SeekTime to a neighbouring track, as long there as back, and adds up on the way |
| `DiskTiming.PassageInBuffer` | nachos/code/machine/disk.cc:243-245 | the buffer test holds exactly if the sector fully passed since bufferInit |
| `DiskTiming.RereadIsBuffered` | nachos/code/machine/disk.cc:234-273 | reading the last requested sector again costs one transfer |
| `Multiplier.Mult` | nachos/code/machine/mipssim.cc:635-692 | hi:lo is the exact 64-bit product of any two words, signed or unsigned, early exit included |
| `Multiplier.MultiplyMagnitudes` | nachos/code/machine/mipssim.cc:657-678 | the shift-and-add loop gives the exact product of the magnitudes |
| `Multiplier.TwosComplement` | nachos/code/machine/mipssim.cc:682-688 | the double-word negation with its carry |
| `Multiplier.ResultIsUnique` | nachos/code/machine/mipssim.cc:690-691 | the product fixes hi and lo |

## Left out

- Instruction decoding and execution: OR reads one register twice and SRL shifts a signed value, so an instruction-set claim would be false; only Mult is modelled.
- nachos/code/bin, nachos/code/userprog/table.cc and the system call glue in nachos/code/userprog/exception.cc, apart from the valid bit set after a page fault.
- Context switches, stacks, console, network, UNIX files and the timer device: foreign code and I/O. The raw disk's UNIX file is a sequence of sectors.
- Deletion of finished threads: a newly started thread skips the cleanup after SWITCH.
- The MIPS TLB: Translate is modelled for page tables, which is how the kernel is built.
- List.Mapcar, debugging output, and the printing routines.
- The 32-bit ends: position + numBytes beyond an int, and the panic when the clock runs out.
- Paging.AddrSpace.ChooseVictim: any valid page, where the source draws at random until it hits one; that the drawing ends is not claimed.
- Paging.AddrSpace.constructor: takes the parsed header and the executable's bytes instead of reading and byte-swapping the header from the file.
- Paging.BackingStore.PageOut: the store's file is a byte sequence written and read by the contract that OpenFiles proves of WriteAt and ReadAt, not an open file on the disk.
- Interrupts.Interrupt.OneTick: ends where the interrupted thread would yield, and says whether it would.
- Kernel.NextKeepsInv: P, Acquire and Wait are runs of turns of their loops, since a method cannot stop in the middle; the turns are methods in Synch and Scheduling, the transition system composes them on values.
- Mailbox.NextKeepsInv: locks, semaphores and conditions appear by the guarantees that Kernel proves (LocksAndSemaphoresAreAsAssumed, NoWakeupIsLost, WaitIsOneStep, SignalWakesTheFirst), and so do they in Whales; runs of Kernel are mapped to runs of SynchDiskProtocol, but not to runs of Mailbox and Whales. The place of a waiter in a list is left open.
- FileSystems.FileSystem.Create: sizes beyond MaxFileSize for which there is room are not modelled, where the source overruns the header's table; nor are negative sizes, which it accepts and records as the file's length.
- FileHeaders.FileHeader.Allocate: sizes beyond MaxFileSize for which there is room, and negative sizes, are not modelled either.
- OpenFiles.OpenFile.ReadAt: negative positions are not modelled.
- SynchDiskProtocol.CallsAreSequential: the lock and the semaphore are those of one SynchDisk; the file system modules use its calls one at a time.

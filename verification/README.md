# rvos in Dafny

rvos is a small microkernel for RISC-V: tasks that talk by rendezvous, one address
space for each, and everything else (file system, network, consoles) in tasks of their
own. This project models its most intricate parts, and what follows is what each part
is proved to do.

- **The allocator** (`Cells`, `HeapModel`, `HeapRuns`, `Heap`): the heap of
  `src/malloc.h` is tiled exactly by free blocks, large blocks and run pages; live
  objects never overlap, and no operation disturbs an object that is not its own.
- **The FAT16 volume** (`Utf`, `Fat*`): every disk image that exists between two sector
  writes describes the tree of files from before the operation or the one from after
  it; what a path reads after an operation is stated for every path.
- **TCP** (`Tcp*`): over any run of segments, time-outs and calls, every byte sent is
  the byte written at that position and inside both windows, every byte read is the
  next of the stream of the peer, and no acknowledgement is taken for something unsent.
- **Messages and tasks** (`Ipc*`): the links through the task table thread each blocked
  sender into one queue, once; nobody is blocked on a task that does not exist; a
  retired id never names anybody again.
- **Paging** (`Vm*`): the tables are a tree whose meaning is a finite map from pages to
  frames; each frame has one role; teardown gives back exactly what was owned; two
  tasks cannot reach one private frame. `VmBirth` is the memory of a new task, for every
  number of frames it may find.
- **Tasks and paging together** (`Machine`): from boot, through tasks made, threads
  started, breaks moved and tasks retired: no task reaches another's memory or any page
  table, memory goes back exactly when the last thread of an address space goes, and
  all threads keep one break that the tables agree with.
- **Namespaces** (`Vfs*`): unions, longest-prefix lookup and binds; a change in one
  namespace shows in no other.
- **The wire protocol** (`FsProto`, `Import`): encoding and decoding are inverse, and a
  stream of messages is recovered however it is cut up.
- **Curses** (`Terminal`, `Curses*`): after an update the terminal shows the new screen,
  whatever was on it, although only differences are written.

Code that works by changing things is a class (`Heap`, `Volume`, `Tcb`, `Kernel`,
`Spaces`, `System`, `NameSpace`, `Pool`, `Client`, `Screen`) whose methods are proved
against specification functions and invariants; the lemmas about those are in the
modules before it. `Common` holds what all of them use.

Time, the answers of devices, random numbers, and whether the kernel or malloc finds
memory come in as parameters or as an arbitrary choice. Integers are unbounded except
where their width matters: sequence numbers, table entries, sizes on disk, the break,
the product in calloc, UTF code units.

## Model

| member | source | states |
|---|---|---|
| HeapModel.ExactTiling | src/malloc.h:30-37 | every address of the heap, from the end of the header to the break, lies in exactly one tile (a free block, a large block, a run page or a region in transit) |
| HeapModel.LinkList | src/malloc.h:141-158 | linking a block between its neighbours keeps the list in address order, listing exactly the free tiles |
| HeapModel.JoinList | src/malloc.h:141-158 | joining two touching free blocks keeps the list in address order, listing exactly the free tiles |
| HeapModel.InsertOk | src/malloc.h:141-158 | after the insertion no two free blocks touch, and every taken tile is as it was |
| HeapModel.InsertRoom | src/malloc.h:141-158 | the freed region ends up inside one free block |
| HeapModel.CarveList | src/malloc.h:225-251 | cutting a piece out of a free block leaves its lead and tail, whichever exist, on the list in its place and in order |
| HeapModel.CarveTiled | src/malloc.h:264-304 | and the pieces still cover the heap exactly |
| HeapModel.WriteCore | src/malloc.h:141-158 | whatever is written inside one taken tile, tiles, headers and list stay as they were |
| HeapModel.TrimCore | src/malloc.h:167-188 | giving whole pages at the end back keeps the tiling exact up to the new break |
| HeapModel.GrowCore | src/malloc.h:210-222 | fresh pages keep the tiling exact up to the new break |
| HeapRuns.SlotsApart | src/malloc.h:337-363 | the slots of one run do not overlap |
| HeapRuns.SlotInPage | src/malloc.h:337-363 | every slot lies in the page of its run, behind the header |
| HeapRuns.ChainCut | src/malloc.h:388-425 | taking one run out of a class list leaves the list of the others, in order |
| HeapRuns.PopSlot | src/malloc.h:365-386 | a popped slot was free and unused; a run that has run out leaves its class list, any other stays |
| HeapRuns.PushSlot | src/malloc.h:388-425 | a pushed slot is free again; a run that was full is back on its class list |
| HeapRuns.AddRun | src/malloc.h:337-363 | a new page becomes a run of its class with every slot free, at the head of its list; every other list is as it was |
| HeapRuns.DropRun | src/malloc.h:388-425 | an emptied run leaves its class list and nothing else does |
| HeapRuns.ObjectsApart | src/malloc.h:365-386 | live objects, large or small, never overlap |
| HeapRuns.ObjectAligned | src/malloc.h:365-386 | each starts on a sixteen-byte boundary and lies inside the heap |
| HeapRuns.FreeBranch | src/malloc.h:388-425 | an object pointer lands on a marked page exactly when it is a slot of that run, so free never takes the wrong branch |
| HeapRuns.SizeRead | src/malloc.h:438-462 | the size realloc reads back is the size of the object |
| HeapRuns.ObjectWrite | src/malloc.h:365-386 | whatever a program writes into its own object, the state of the allocator and every other object are as they were |
| HeapRuns.PopAll | src/malloc.h:365-386 | one pop keeps every invariant, adds exactly one object and disturbs none |
| HeapRuns.PushAll | src/malloc.h:388-425 | one push keeps every invariant, removes exactly one object and disturbs none |
| HeapRuns.InstallAll | src/malloc.h:337-363 | making a page into a run keeps every invariant and disturbs no object |
| HeapRuns.RetireAll | src/malloc.h:388-425 | taking an emptied run off its list and out of the page map keeps every invariant and disturbs no object |
| HeapRuns.FewPieces | src/malloc.h:141-158 | there is at most one more free piece than there are taken tiles |
| HeapRuns.AllFreed | src/malloc.h:388-425 | once every object is freed the heap is at most two free pieces: only the page map can stand between them |
| HeapAllocator.FindPlace | src/malloc.h:141-147 | the walk finds the free blocks on either side of the one being freed |
| HeapAllocator.Relink | src/malloc.h:147-158 | the links and joins it writes are those of the specification |
| HeapAllocator.FirstFit | src/malloc.h:225-251 | the block found is the first in address order that is large enough, or there is none |
| HeapAllocator.FirstPage | src/malloc.h:264-304 | the block found is the first with a page in it that leaves no crumb on either side, or there is none |
| HeapAllocator.Carve | src/malloc.h:337-363 | the slots of a new run are threaded into one list, each once |
| HeapAllocator.CopyMap | src/malloc.h:310-335 | the new page map starts with the old one and is zero beyond |
| HeapAllocator.MapLength | src/malloc.h:310-335 | the new length covers the page and is at least twice the old |
| HeapAllocator.FindRun | src/malloc.h:388-425 | an emptied run is found in its class list with its predecessor |
| HeapAllocator.CallocOverflow | src/malloc.h:427-436 | the division catches exactly the products that wrapped in 64 bits |
| HeapAllocator.AskedIs | src/malloc.h:210-229 | the test of m__big catches exactly the sums that wrapped; of the other sizes, the kernel is asked for the pages needed iff they number less than 2^63 bytes, and otherwise for none or a negative number |
| HeapAllocator.CopyBytes | src/malloc.h:126-130 | the bytes arrive and nothing else changes |
| HeapAllocator.ZeroBytes | src/malloc.h:132-136 | the bytes are zero and nothing else changes |
| HeapAllocator.Heap.constructor | src/malloc.h:190-208 | a page never touched becomes a valid, empty heap |
| HeapAllocator.Heap.Insert | src/malloc.h:141-158 | the block is free, joined to whatever it touches, and every taken tile is as it was |
| HeapAllocator.Heap.Trim | src/malloc.h:167-188 | no object moves or changes whether or not the kernel takes the pages back |
| HeapAllocator.Heap.Grow | src/malloc.h:210-222 | no object moves or changes; a refusal leaves the heap valid; the call faults iff the kernel was asked for nothing or less, since what it then answers is not mapped |
| HeapAllocator.Heap.BigAlloc | src/malloc.h:225-251 | a block of at least the size asked for, or 0 and then the kernel refused to grow the heap; a fault iff the size is one the kernel cannot be asked for |
| HeapAllocator.Heap.Page | src/malloc.h:264-304 | one page on a page boundary out of the same pool, or 0 |
| HeapAllocator.Heap.DirCover | src/malloc.h:310-335 | the page map reaches the page, its old marks intact, and no object is disturbed |
| HeapAllocator.Heap.NewRun | src/malloc.h:337-363 | a run of the class with every slot free, or 0, and no object disturbed |
| HeapAllocator.Heap.Malloc | src/malloc.h:365-386 | for every size below 2^64: a new object of at least n bytes that was none before, or 0, or a fault iff the size is one the kernel cannot be asked for; every other object keeps its place, size and contents |
| HeapAllocator.Heap.FreeObject | src/malloc.h:388-425 | the object is gone; every other object keeps its place, size and contents; 0 is ignored |
| HeapAllocator.Heap.Calloc | src/malloc.h:427-436 | as Malloc of the product, zeroed; a product that overflows gives 0; a fault iff the product does not overflow and is one Malloc faults on |
| HeapAllocator.Heap.Realloc | src/malloc.h:438-462 | the result is at least as large as asked and holds the contents of the old object, which is gone unless it is the result; on failure nothing changed; a fault iff Malloc of the size is one |
| HeapAllocator.Heap.Store | src/malloc.h:365-386 | a store into an object keeps the heap valid and every other object as it was |
| HeapAllocator.MallocHuge | src/malloc.h:210-229 | malloc(2^63), the first call a program makes, faults |
| Utf.ToUtf16 | src/fat16.c:206-236 | the units of the specification, or -1 if they do not fit |
| Utf.ToUtf8 | src/fat16.c:238-269 | the bytes of the specification, or -1 if they and the terminator do not fit |
| Utf.RoundTrip | src/fat16.c:206-269 | every well-formed UTF-8 name (section 3 of RFC 3629) comes back from UTF-16 unchanged |
| Utf.UnitsFew | src/fat16.c:206-236 | no character becomes more units than it had bytes |
| Utf.OverlongDot | src/fat16.c:206-236 | the bytes C0 AE become a full stop |
| FatNames.FmtTo83 | src/fat16.c:78-110 | a name that fits 8.3 comes back from its entry unchanged |
| FatScan.ChainSpan | src/fat16.c:312-370 | long entries being collected are an unbroken run of slots |
| FatScan.NameReturns | src/fat16.c:312-370 | through the 8.3 form or through long entries a well-formed name is listed exactly as it was given |
| FatScan.CreateList | src/fat16.c:742-788 | after dir_create the listing has the new name where it was put and every other item unchanged |
| FatScan.EraseList | src/fat16.c:871-886 | after dir_erase the listing lacks exactly the erased item |
| FatScan.UpdateList | src/fat16.c:790-866 | repointing an entry changes only the cluster and size of one item |
| FatScan.ShortFresh | src/fat16.c:434-491 | the short name chosen clashes with nobody whenever one of the 99 candidates is free |
| FatScan.EntryText | src/fat16.c:742-788 | a component that fits its buffer gives at most as many units as long entries can hold |
| FatDisk.PutFatAt | src/fat16.c:683-694 | fat_set on one copy changes that entry and nothing else anywhere |
| FatDisk.PutSlotHere | src/fat16.c:186-193 | slot_put changes one slot of its directory |
| FatDisk.PutSlotThere | src/fat16.c:186-193 | and no slot of any directory that shares no cluster with it |
| FatTree.ChainUnique | src/fat16.c:69-75 | a first cluster has at most one chain |
| FatTree.DirsApart | src/fat16.c:117-134 | two directories of a tree share no sector |
| FatTree.FileApart | src/fat16.c:790-866 | a file of a tree shares no cluster with a directory |
| FatReach.CrashChains | src/fat16.c:790-866 | on every image that describes a tree, an entry that can be reached heads no free cluster and its chain is whole |
| FatReach.CrashApart | src/fat16.c:790-866 | and no cluster is in the chains of two reachable entries |
| FatReach.AllReached | src/fat16.c:531-571 | every directory of the tree can be reached from the root |
| FatReach.SameEntries | src/fat16.c:312-370 | an image describes at most one tree |
| FatSteps.SafeSecWrite | src/fat16.c:790-866 | a write to a sector nobody lies on leaves the image describing the same tree |
| FatSteps.SafeFatWrite | src/fat16.c:683-694 | so does a write to the table entry of a cluster nobody owns |
| FatCommit.SafeAdd | src/fat16.c:928-970 | the one slot write that makes a directory appear turns the image of one tree into that of the next |
| FatCommit.SafeSet | src/fat16.c:790-866 | the one slot write that makes or repoints a file entry does the same |
| FatFull.ChunksBytes | src/fat16.c:790-866 | the bytes read out of the sectors are the bytes written into them |
| FatFull.LinkUndo | src/fat16.c:710-717 | a chain built and then freed leaves the table as it was |
| FatFull.ExactSet | src/fat16.c:790-866 | the new chain linked and the old one freed, exactly the clusters in use are marked |
| FatPrune.SafePrune | src/fat16.c:888-923 | an entry disappears and the image describes the tree without it and what lay below |
| FatPrune.FullPrune | src/fat16.c:888-923 | with nothing below it owning a cluster, exactly the clusters in use stay marked |
| FatPrune.LeakLost | src/fat16.c:888-923 | with something below it owning one, no tree accounts for every marked cluster |
| FatPrune.VictimLost | src/fat16.c:888-923 | a directory still listed whose first cluster is free: no tree describes the image |
| FatPrune.OrphanLost | src/fat16.c:888-923 | a directory whose own entry for its parent is gone: no tree describes the image |
| FatResult.LookupCreate | src/fat16.c:742-788 | after dir_create the new name leads to the new entry, unless it led somewhere already, and every other name leads where it led |
| FatResult.FullCreate | src/fat16.c:790-866 | writing a new file leaves a sound volume: tidy directories, exactly the used clusters marked |
| FatResult.FullUpdate | src/fat16.c:790-866 | so does writing over an existing file |
| FatResult.FullMkdir | src/fat16.c:928-970 | so does making a directory |
| FatVolume.ListedWell | src/fat16.c:742-788 | a well-formed name is listed under itself |
| FatVolume.EmptyIs | src/fat16.c:888-923 | where names are plain, the test of fat16_remove is exactly that the tree has nothing in the directory |
| FatVolume.BadPlain | src/fat16.c:888-923 | with plain names the failing removals are . of an empty directory, and .. of a directory of a root that lists dot names only |
| FatVolume.EntryGone | src/fat16.c:888-923 | removing an entry of the tree leaves a sound volume iff nothing below it owned a cluster |
| FatVolume.SelfGone | src/fat16.c:888-923 | removing one of the two entries a directory keeps about itself leaves no tree at all |
| FatVolume.Volume.constructor | src/fat16.c:39-59 | a volume that describes a tree is taken over as it is |
| FatVolume.Volume.BlkWrite | src/fat16.c:186-193 | the only step that changes the disk; every image is put on record |
| FatVolume.Volume.FatSet | src/fat16.c:683-694 | every copy of the entry is set, one image each |
| FatVolume.Volume.FatAllocFrom | src/fat16.c:696-708 | the first free cluster at or after the start, or 0 and there is none |
| FatVolume.Volume.FatFreeChain | src/fat16.c:710-717 | every cluster of the chain is free and nothing else changed |
| FatVolume.Volume.DirSector | src/fat16.c:117-134 | the sector of the n-th part of a directory, or none past its end |
| FatVolume.Volume.ScanNext | src/fat16.c:312-370 | the next item of the listing |
| FatVolume.Volume.DirLookup | src/fat16.c:386-403 | the first item that matches the name ignoring case, or none |
| FatVolume.Volume.DirRun | src/fat16.c:408-426 | the first run of that many free slots, or there is none |
| FatVolume.Volume.DirCreate | src/fat16.c:742-788 | the slots of the new entry, written so that each image describes the old tree or the new; -1 iff the name has no units or there is no room |
| FatVolume.Volume.WriteChain | src/fat16.c:790-866 | the data in a chain nobody owns iff there is room; otherwise the tables are as they were |
| FatVolume.Volume.Repoint | src/fat16.c:790-866 | the entry points at the new chain before the old one is freed |
| FatVolume.Volume.WriteLeaf | src/fat16.c:790-866 | the file holds the data; each image on the way describes the old tree or the new; -1 leaves every entry and table as it was |
| FatVolume.Volume.ReadLeaf | src/fat16.c:630-666 | exactly the bytes of the file, iff it exists, is no directory and fits |
| FatVolume.Volume.SizeLeaf | src/fat16.c:615-628 | the size of the file, or -1 for a directory or nothing |
| FatVolume.Volume.DirErase | src/fat16.c:871-886 | each image on the way describes the tree with the entry or without it |
| FatVolume.Volume.RemoveLeaf | src/fat16.c:888-923 | 0 iff the name leads to a file or to a directory listing dot names only; the volume is sound afterwards iff it was not one of the failing removals |
| FatVolume.Volume.MkdirLeaf | src/fat16.c:928-970 | a directory with its own two entries and nothing else; each image on the way describes the old tree or the new |
| FatWalk.LongComponent | src/fat16.c:531-571 | the names a path is cut into are those between its slashes iff each of them is shorter than 96 bytes |
| FatWalk.CutsAre | src/fat16.c:531-571 | for every path, the names it is cut into are those between its slashes, each in pieces of 95 bytes with the rest last |
| FatWalk.WalkCuts | src/fat16.c:531-571 | and the directory and leaf a path leads to are where those names lead, one after another |
| FatWalk.WrittenSeen | src/fat16.c:790-866 | after a write the paths that end at the name read the data and every other path reads what it read |
| FatWalk.RemovedFileSeen | src/fat16.c:888-923 | after removing a file its paths read nothing and every other path reads what it read |
| FatWalk.RemovedDirSeen | src/fat16.c:888-923 | after removing a directory no path reads anything new, and only paths through it anything else |
| FatWalk.MadeSeen | src/fat16.c:928-970 | after mkdir every path to a file leads to the same file, and only paths through the new directory to one where there was none |
| FatPath.Formatted | src/fat16.c:39-59 | a freshly formatted volume is sound and its tree is the bare root |
| FatPath.Resolve | src/fat16.c:531-571 | the directory and leaf of the specification, or -1 |
| FatPath.Read | src/fat16.c:630-666 | the bytes the path leads to, or -1 if it leads to none or they do not fit |
| FatPath.FileSize | src/fat16.c:615-628 | how many bytes Read would find, or -1 |
| FatPath.Write | src/fat16.c:790-866 | whatever the name: afterwards every path reads what the theorem of WrittenSeen says, and every image on the way describes the old tree or the new; names stay plain iff the new one is |
| FatPath.Remove | src/fat16.c:888-923 | the volume is sound afterwards iff the path did not lead to a failing removal, and then every path reads what RemovedFileSeen or RemovedDirSeen says |
| FatPath.Mkdir | src/fat16.c:928-970 | whatever the name: no file is lost to any path; names stay plain iff the new one is |
| FatRuns.Format | src/fat16.c:39-59 | a sound volume of this format exists |
| FatRuns.RemoveDot | src/fat16.c:888-923 | mkdir /A and remove /A/. answer 0 and leave no tree on the disk |
| FatRuns.RemoveDotDot | src/fat16.c:888-923 | so do mkdir /. and remove /./.. |
| FatRuns.RemoveOverlong | src/fat16.c:888-923 | a file named C0 AE in /A: remove /A answers 0 and leaks its cluster |
| FatRuns.WriteLong | src/fat16.c:531-571 | mkdir of a name N of 95 bytes, then a write to N with a B behind it: the data is in the file B of the directory N |
| TcpSeq.DiffIs | src/net_ip.c:503-508 | the wrapped difference is the true one while that stays below 2^31 |
| TcpSeq.CompareIs | src/net_ip.c:503-508 | so the three comparisons agree with the order of stream positions |
| TcpSeq.CompareExactly | src/net_ip.c:503-508 | of positions less than 2^32 apart they agree with the order, asked either way round, iff these are less than 2^31 apart |
| TcpSeq.HalfApart | src/net_ip.c:503-508 | at exactly 2^31 each of the two is before the other |
| TcpSend.AckIs | src/net_ip.c:1130-1196 | an acknowledgement passes the two tests iff it is of a position in flight, and then names that position |
| TcpSend.AfterAck | src/net_ip.c:1130-1196 | dropping the acknowledged bytes leaves the buffer the unacknowledged tail of the stream |
| TcpSend.Shift | src/net_ip.c:1888-1901 | the bytes left move to the front, in order |
| TcpSend.Append | src/net_ip.c:834-844 | the bytes are written behind what the buffer holds and nowhere else |
| TcpRecv.AfterTake | src/net_ip.c:1888-1901 | reading n bytes yields the next n of the stream and leaves the queue the rest |
| TcpRecv.AfterAccept | src/net_ip.c:945-985 | accepted bytes extend the queue by exactly the next bytes of the stream |
| TcpDrain.Lies | src/net_ip.c:987-1019 | the two comparisons of the loop say exactly whether a held segment is ahead, overtaken or straddles the expected byte |
| TcpDrain.TurnFrees | src/net_ip.c:987-1019 | while some byte up to the window edge is not held, a turn that makes progress lets a segment go |
| TcpDrain.TurnKeeps | src/net_ip.c:987-1019 | while all of them are held, every turn leaves it so and the segment at the expected byte always counts as progress |
| TcpDrain.DrainEnds | src/net_ip.c:987-1019 | the loop ends iff some byte from the expected one to the first past the window is not held |
| TcpDrain.WindowEnds | src/net_ip.c:987-1019 | for a peer that keeps to the window there is such a byte |
| TcpDrain.StepFrees | src/net_ip.c:987-1019 | and every turn that makes progress frees its segment, having queued exactly what was missing |
| TcpDrain.OverrunRun | src/net_ip.c:1049-1068 | three segments, 2401 bytes into a window of 2048, after which the loop never ends |
| Tcp.AllAcked | src/net_ip.c:1119-1120 | fin_sent with nothing outstanding means every byte and our FIN were acknowledged |
| Tcp.Threshold | src/net_ip.c:1130-1196 | the new threshold is at least two segments and fits 16 bits if what is in flight does |
| Tcp.Wider | src/net_ip.c:1130-1196 | the congestion window stays between 1 and 65535 |
| Tcp.ParseOptions | src/net_ip.c:1103-1117 | the segment size is the old one or one between 128 and 1460, whatever the option bytes |
| Tcp.Tcb.Connect | src/net_ip.c:885-903 | a block in SYN-SENT that meets every invariant |
| Tcp.Tcb.Passive | src/net_ip.c:1225-1256 | a block in SYN-RECEIVED that meets every invariant |
| Tcp.Tcb.SegXmit | src/net_ip.c:719-746 | a segment that went out is on record with the acknowledged position and both windows of that moment |
| Tcp.Tcb.PushData | src/net_ip.c:786-812 | every byte sent is the byte written at its position, inside both windows; if the way is up, nothing sendable is left unsent |
| Tcp.Tcb.Output | src/net_ip.c:771-825 | the same, with SYN and FIN in their places; the FIN goes only behind the last byte |
| Tcp.Tcb.Write | src/net_ip.c:834-844 | as many bytes as there is room for join the stream, in order |
| Tcp.Tcb.Close | src/net_ip.c:908-924 | the FIN is queued behind what was written and the state moves as the close diagram says |
| Tcp.Tcb.RttUpdate | src/net_ip.c:853-870 | the timeout stays between its bounds |
| Tcp.Tcb.Rewind | src/net_ip.c:1130-1196 | sending restarts at the oldest unacknowledged position and nothing written is lost |
| Tcp.Tcb.AckInput | src/net_ip.c:1130-1196 | whatever is acknowledged, the position moves forward only and never past what was sent |
| Tcp.Tcb.RcvAccept | src/net_ip.c:945-985 | the queue grows by exactly the next bytes of the stream, as far as there is room |
| Tcp.Tcb.DrainOne | src/net_ip.c:987-1019 | one turn of the loop, as the specification function has it |
| Tcp.Tcb.OooDrain | src/net_ip.c:987-1019 | it ends, after some number of passes, with no held segment that could be delivered |
| Tcp.Tcb.OooStore | src/net_ip.c:1021-1047 | the segment is held once, cut to the slot, or dropped; nothing else changes |
| Tcp.Tcb.RcvData | src/net_ip.c:1049-1068 | segments in any order, old, new or overlapping: what is queued is always the stream itself, and an in-order segment is taken whole |
| Tcp.Tcb.Take | src/net_ip.c:1903-1911 | the reader gets the next bytes of the stream, in order, once each |
| Tcp.Tcb.SynInput | src/net_ip.c:1266-1292 | the open completes only with a SYN, and then both streams start where the numbers say |
| Tcp.Tcb.FinInput | src/net_ip.c:1346-1375 | the FIN of the peer is consumed once, at the end of its stream, and the state moves as the close diagram says |
| Tcp.Tcb.AckStep | src/net_ip.c:1294-1335 | the connection is given up in LAST-ACK only once everything was acknowledged |
| Tcp.Tcb.Input | src/net_ip.c:1198-1376 | every segment keeps every invariant; the stream is never disturbed; a block is freed only by RST or when both sides have everything |
| Tcp.Tcb.Retransmit | src/net_ip.c:1476-1543 | everything from the oldest unacknowledged position goes again, nothing else |
| Tcp.Tcb.Timeout | src/net_ip.c:1476-1543 | a timeout keeps every invariant and moves no acknowledged position; it closes only from TIME-WAIT, with everything acknowledged on both sides |
| IpcModel.QueuedOnce | src/ipc.c:20-53 | a task is in a queue iff it is blocked in send, and then in one queue, once, of a task that exists |
| IpcModel.NobodyStranded | src/task.c:119-200 | a blocked task is in the queue of one that exists, or waits for one that exists, or can be heard from |
| IpcModel.NoneMissed | src/ipc.c:57-62 | nobody waits to receive while somebody it would accept waits to send to it |
| IpcQueue.Enqueue | src/ipc.c:20-31 | the sender goes to the end of the list |
| IpcQueue.Dequeue | src/ipc.c:37-53 | the first acceptable sender leaves the list, or there is none |
| IpcQueue.UnlinkThreads | src/ipc.c:37-53 | taking one out leaves the others in order |
| IpcQueue.ParkInv | src/ipc.c:136-144 | parking on the queue of a task that exists and does not want it keeps the invariant |
| IpcQueue.LeaveInv | src/ipc.c:181-192 | a sender leaving its queue and going on keeps it |
| IpcQueue.Dismiss | src/task.c:121-130 | exactly the senders waiting for the retiring task fail |
| IpcQueue.TellAll | src/task.c:153-171 | exactly those waiting for it, or to hear from it, are told |
| IpcQueue.UnqueueFrom | src/task.c:131-152 | the task is found in the queue iff it is there, and unlinked |
| IpcQueue.DismissInv | src/task.c:121-130 | dismissing keeps the invariant for everybody but the retiring task |
| IpcQueue.UnqueueInv | src/task.c:131-152 | so does taking it out of a queue |
| IpcQueue.ToldInv | src/task.c:153-171 | so does telling the others, unless it is id 0 and somebody is blocked without waiting for a task to end |
| IpcQueue.DeadInv | src/task.c:193-195 | releasing the slot restores the whole invariant |
| Ipc.CopiedIs | src/ipc.c:66-75 | between buffers that do not overlap every byte arrives and no other byte changes |
| Ipc.PeekCopied | src/ipc.c:66-75 | so what is found in the one is what stood in the other |
| Ipc.GoneForGood | src/task.c:104-114 | a retired id names nobody ever again |
| Ipc.BornName | src/task.c:79-102 | the id of a new task was nobody's before |
| Ipc.DeadSpaces | src/task.c:173-192 | an address space is given up exactly when its last task goes |
| Ipc.FindRunnable | src/task.c:272-294 | a runnable slot, or there is none |
| Ipc.Schedule | src/task.c:272-294 | some runnable task runs iff there is one; who runs is all that changes |
| Ipc.ShuffledInv | src/task.c:272-294 | the queue invariant holds after scheduling iff it held before |
| Ipc.PickIs | src/ipc.c:37-53 | the sender a receive takes is the first acceptable one |
| Ipc.LostSender | src/ipc.c:181-187 | after a failed copy no lists of senders make sense of the table |
| Ipc.WaitZero | src/task.c:447-457 | nor after blocking on id 0 |
| Ipc.RetireZero | src/task.c:153-171 | nor after retiring id 0 while somebody else is blocked without waiting for a task to end |
| Ipc.Kernel.constructor | src/task.c:705-710 | the boot state meets every invariant |
| Ipc.Kernel.Deliver | src/ipc.c:66-75 | the bytes that fit, copied; -1 iff one of them is unmapped on either side, and then only a prefix was copied |
| Ipc.Kernel.Handover | src/ipc.c:117-129 | the parked receiver gets the bytes and the id of the sender, and both go on; or the send fails and it still waits |
| Ipc.Kernel.Park | src/ipc.c:136-144 | the sender is blocked at the end of the queue and everybody else is as before |
| Ipc.Kernel.Send | src/ipc.c:91-144 | each of the four outcomes, iff its condition holds, with the whole new state; the invariant is kept |
| Ipc.Kernel.Recv | src/ipc.c:154-201 | each outcome, iff its condition holds, with the whole new state; the table makes sense afterwards iff no copy from a dequeued sender failed |
| Ipc.Kernel.Collect | src/ipc.c:181-192 | the bytes of the sender and its id to the receiver, 0 to the sender, one record of one meeting; or the sender is lost, iff a buffer is unmapped |
| Ipc.Kernel.Listen | src/ipc.c:194-200 | the receiver waits, and everybody else is as before |
| Ipc.Kernel.Interrupt | src/trap.c:38-104 | a waiting receiver is woken with the event, any other task has it flagged |
| Ipc.Kernel.Wait | src/task.c:447-457 | the caller waits iff the id names a task; the table makes sense afterwards iff that was not task 0 |
| Ipc.Kernel.Unqueue | src/task.c:131-152 | the task stands in no queue, and nothing else changed but links |
| Ipc.Kernel.DropSpace | src/task.c:173-192 | the space goes iff nobody else stands in it |
| Ipc.Kernel.Retire | src/task.c:119-200 | nobody counts on the task any more, its id names nobody, its space is given up iff it was the last; the table makes sense afterwards iff the id was not 0 or nobody else was blocked without waiting for a task to end |
| Ipc.Kernel.Exit | src/task.c:496-499 | the same for the running task, and another one runs |
| Ipc.Kernel.Kill | src/task.c:624-640 | refused for itself, slot 0 and nobody; otherwise the target is retired and the caller goes on |
| Ipc.Kernel.AllocSlot | src/task.c:79-102 | the first free slot, wiped, or every slot is taken |
| Ipc.Kernel.Settle | src/task.c:202-235 | the slot has its address space and an id nobody ever had |
| Ipc.Kernel.Spawn | src/task.c:202-235 | a slot becomes a task with an id nobody ever had, iff there is one free |
| Ipc.Kernel.Thread | src/task.c:592-619 | a task in the address space of the caller, iff there is room and the arguments are not 0 |
| Ipc.Kernel.Start | src/task.c:661-678 | a task under construction is let go; anything else is refused |
| IpcRuns.LoseSender | src/ipc.c:181-187 | from boot: a thread, a send from an unmapped buffer, a receive: the sender is lost |
| IpcRuns.EndFirst | src/task.c:153-171 | from boot: the first task exits while the second waits to receive: nothing makes sense of the table |
| IpcRuns.WaitForFirst | src/task.c:447-457 | from boot: a wait for id 0 does the same |
| VmTable.PteRoundTrip | src/vm.c:32-75 | an entry as written by walk and vm_map_at is read back as the same link or leaf |
| VmTable.TransIs | src/vm.c:89-102 | the walk of the tables gives the translation of the tree |
| VmTable.NodesApart | src/vm.c:32-53 | two places of the tree are two tables |
| VmTable.PutOk | src/vm.c:55-87 | making, changing or dropping one leaf leaves well-formed memory: every frame has one role, and a leaf leads to its own address, a private frame or frame 0 |
| VmTable.PutTrans | src/vm.c:55-87 | and changes the translation of exactly one page of one address space |
| VmTable.GrownTrans | src/vm.c:32-53 | a table added changes no translation |
| VmFree.UnderEntry | src/vm.c:170-187 | under one entry hang nothing, one private page, or a table and all inside it |
| VmFree.DropRoot | src/vm.c:189-196 | without one address space the rest is well formed |
| Vm.OwnPage | src/vm.c:77-87 | a private page belongs to exactly one virtual page |
| Vm.Spaces.constructor | src/pmm.c:27-34 | every page of the arena is on the free list once |
| Vm.Spaces.Alloc | src/pmm.c:36-45 | a frame nobody had, or 0 and none is free |
| Vm.Spaces.Push | src/pmm.c:16-25 | the frame is on the free list once; what lies below the arena is refused |
| Vm.Spaces.Walk | src/vm.c:32-53 | the lowest table on the way, made if asked; no translation changes, and each frame taken has become one of the tables on the way |
| Vm.Spaces.MapPage | src/vm.c:55-75 | that page leads to that frame and every other page of every space where it did; it fails only for want of a frame for a table |
| Vm.Spaces.MapAt | src/vm.c:55-75 | a range of pages, or a prefix of it when frames run out; every other page leads where it did |
| Vm.Spaces.UnmapPage | src/vm.c:77-87 | the page leads nowhere and a private frame is free again; shared frames and frame 0 are not |
| Vm.Spaces.FreeWalk | src/vm.c:170-187 | every table and private page under the table is freed once, nothing else; no table is read after it was freed |
| Vm.Spaces.FreeTask | src/vm.c:189-196 | exactly the frames the address space owned are free; every other frame keeps its role |
| Vm.Spaces.NewRoot | src/vm.c:326-341 | an empty address space |
| Vm.Spaces.DropPages | src/task.c:525-541 | no page of the range is private any more, no other translation changed, no frame is lost |
| Vm.Spaces.Sbrk | src/task.c:502-553 | the heap is mapped exactly up to the new break iff that is not below address 0 and a heap that shrinks had a page, for break 0 too; a failure changes no translation; no frame is lost in any case |
| VmSpace.CreateTable | src/vm.c:326-341 | a space that maps the kernel image and the devices to themselves and nothing else; it takes seven frames and one for every 512 pages of the image, or all there are |
| VmSpace.FrameCost | src/vm.c:326-341 | the tables a new space is made of are that many |
| VmSpace.Isolation | src/vm.c:312-325 | two virtual pages that lead to one frame of the arena are the same page of the same space |
| VmSpace.FreshNoArena | src/vm.c:312-325 | a new space maps nothing of the arena to itself |
| VmSpace.StillNoArena | src/vm.c:312-325 | nor does any space after a change below the arena |
| VmSpace.TablesHidden | src/vm.c:312-325 | no table is within reach of its own address space |
| VmSpace.Translate | src/vm.c:89-102 | the three-level walk computes the translation, or 0 |
| VmSpace.CopyAcross | src/vm.c:113-133 | the bytes arrive however both buffers are cut into pages; -1 at the first byte that is nowhere |
| VmSpace.TasksApart | src/vm.c:113-133 | two buffers are apart iff no address is in both that leads both tasks to the same frame, private or shared |
| VmSpace.OneByte | src/vm.c:113-133 | two tasks have a byte in common iff it is at the same address in both and its page leads both to the same frame |
| VmBirth.StackPage | src/task.c:213-217 | with frames enough the page has one of its own; with none it leads to frame 0 if there is a table; a frame is lost iff it found no table |
| VmBirth.HeapPage | src/task.c:31-38 | the break is set iff there was a frame, the page is mapped iff there was one for its table too |
| VmBirth.Stack | src/task.c:213-217 | for every number of frames: which of the four pages have frames of their own, which lead to frame 0 and which nowhere, and whether a frame was lost |
| VmBirth.Birth | src/task.c:210-218 | for every number of frames left once the table is made: stack, break, frames left and lost; the heap is in step with the break iff there were not exactly six |
| VmBirth.StackOnZero | src/task.c:213-217 | from boot, ten frames: the second page of the stack is frame 0 |
| Machine.Sweep | src/task.c:543-550 | exactly the tasks of the address space get the new break |
| Machine.System.Retire | src/task.c:119-200 | what the address space owned is free again exactly when its last task went; before that no frame changes; every invariant of the system is kept |
| Machine.System.Sbrk | src/task.c:502-553 | all threads agree on one break, and it fits the tables of all of them iff it is not below address 0 and a heap that shrinks had a page; the other invariants are kept in any case |
| Machine.System.Thread | src/task.c:592-619 | a thread in the address space of the caller, with its break, iff there is a slot and the arguments are not 0; every invariant is kept |
| Machine.System.New | src/task.c:202-235 | a task with an address space of its own, iff there is a slot and a frame; every invariant is kept iff there was not exactly one frame too few for its heap page |
| Machine.System.Start | src/task.c:661-678 | letting a task go keeps every invariant and moves nobody |
| Machine.System.constructor | src/kmain.c:216-258 | boot on any number of frames gives a first task and meets every invariant, iff there was not exactly one frame too few for its heap page |
| Machine.System.Isolated | src/vm.c:312-325 | in every such state: a frame of the arena within reach of two tasks is at one address of one address space they share |
| Machine.System.TablesApart | src/vm.c:312-325 | and no page table is within reach of any task |
| Machine.System.Unmoved | src/task.c:272-294 | a step that leaves every task in its address space keeps every invariant |
| Machine.BornBroken | src/task.c:31-38 | from boot, fourteen frames: the first task has a break one page up and no heap page |
| Machine.ShrinkNothing | src/task.c:502-553 | from boot, thirteen frames: break 0, then sbrk(-1): the same |
| Machine.ShrinkPastZero | src/task.c:502-553 | from boot: sbrk to below address 0 leaves the break above the top of the heap |
| VfsTable.OneName | src/vfs.c:223-243 | prefixes of one length that match one path are one name |
| VfsTable.PickIs | src/vfs.c:268-294 | the n-th answer is the n-th member of the union of the longest matching name |
| VfsTable.PutUnion | src/vfs.c:156-191 | the union at the name is joined as the flags ask and no other union changes |
| VfsTable.WithoutUnion | src/vfs.c:249-264 | taking a name back empties its union and leaves every other one, in order |
| VfsTable.BindMeans | src/vfs.c:301-347 | a path under a bound name means what the same path under the target means |
| VfsTable.MoreHops | src/vfs.c:296-347 | more hops never change an answer |
| VfsTable.BindLoop | src/vfs.c:296-347 | names bound to each other answer nobody |
| VfsTable.AstrayIs | src/vfs.c:301-347 | the code reads past the end of the path iff a bind named with a slash at the end is met without it on the way |
| Vfs.NameSpace.Insert | src/vfs.c:156-191 | joined as asked iff there is room or MREPL makes some; otherwise the table is as it was |
| Vfs.NameSpace.Mount | src/vfs.c:193-203 | 0 iff there is room; the union at the prefix gains the server, no other union changes |
| Vfs.NameSpace.Bind | src/vfs.c:208-218 | the same for a bind |
| Vfs.NameSpace.Unmount | src/vfs.c:249-264 | -1 iff nothing was there; the union is empty, every other one as it was |
| Vfs.NameSpace.NthMatch | src/vfs.c:268-294 | the answer of the specification |
| Vfs.NameSpace.Resolve | src/vfs.c:301-347 | the answer of the specification, for every table and path |
| Vfs.BindSlash | src/vfs.c:301-347 | bind /b at /a/ and resolve /a: the code reads past the end of the path |
| Vfs.Pool.Clone | src/vfs.c:83-99 | an equal table that shares no storage with any other; -1 iff no slot or no page is left |
| Vfs.Pool.Sweep | src/vfs.c:121-136 | a private namespace goes iff no live task looks at it |
| Vfs.Pool.Retire | src/vfs.c:121-136 | what the task alone looked at goes with it |
| Vfs.Pool.MountIn | src/vfs.c:193-203 | a mount shows in one namespace and nowhere else |
| Vfs.Pool.BindIn | src/vfs.c:208-218 | so does a bind |
| Vfs.Pool.UnmountIn | src/vfs.c:249-264 | so does an unmount |
| FsProto.DecodeEncode | src/fsproto.h:75-140 | a message decodes to itself whatever follows it |
| FsProto.EncodeDecode | src/fsproto.h:75-140 | and the bytes taken are those it encodes to |
| FsProto.PrefixShort | src/fsproto.h:110-140 | nothing short of a whole message is taken for one, or for garbage |
| FsProto.Encode | src/fsproto.h:75-104 | the bytes of the message, or -1 iff they do not fit |
| FsProto.Decode | src/fsproto.h:110-140 | 0 iff more bytes are needed, -1 iff it cannot be a message, otherwise the message and its length |
| Import.ParseMore | prog/import.c:225-243 | a verdict is not changed by what arrives later |
| Import.SplitMore | prog/import.c:225-243 | splitting goes on from where it left off, however the stream was cut |
| Import.SplitWires | prog/import.c:225-243 | messages sent one after another are the messages received |
| Import.SplitPrefix | prog/import.c:225-243 | and at any moment the first of them |
| Import.Client.Drain | prog/import.c:225-243 | every whole message is handed on once, in order |
| Import.Client.Receive | prog/import.c:330-344 | a read is taken whole: the buffer never has to cut one |
| Import.Client.Session | prog/import.c:330-344 | over a whole conversation, cut up in any way, the messages handed on are those of the byte stream |
| Terminal.CharShows | prog/curses.h:237-254 | a character arrives at the terminal as itself, however many bytes it takes |
| Terminal.MovePlaces | prog/curses.h:276-287 | a move sequence puts the cursor where it says |
| CursesCells.AttrSets | prog/curses.h:292-316 | one attribute sequence sets exactly that look |
| CursesCells.ShowSync | prog/curses.h:642-700 | a cell written at the cursor, not in the corner, shows there and moves the cursor on, wrapping or not |
| Curses.Screen.Num | prog/curses.h:225-233 | the decimal digits of the number |
| Curses.Screen.Goto | prog/curses.h:276-287 | the cursor is where it should be, moved or not |
| Curses.Screen.SetAttr | prog/curses.h:292-316 | what is drawn next looks as asked |
| Curses.Screen.RunEnd | prog/curses.h:642-700 | a run ends at a difference, with a stretch of agreeing cells behind it too long to write over, or the end of the line |
| Curses.Screen.Line | prog/curses.h:642-700 | after its line the terminal shows what the line should be |
| Curses.Screen.DoUpdate | prog/curses.h:642-700 | whatever both screens held, the terminal then shows the new one, has not scrolled, and its corner was not written |
| Curses.Screen.constructor | prog/curses.h:966-1002 | what the library believes of the terminal is true iff the look was plain before |
| Curses.Screen.InitPair | prog/curses.h:518-525 | belief and terminal stay in step iff the pair was not in use or its colours look the same |
| Curses.NewPair | prog/curses.h:518-525 | what a terminal shows still matches after new colours for a pair, iff no cell on the screen is in it, nor what is drawn next, or the colours look the same |
| Curses.Screen.TouchAll | prog/curses.h:724-731 | after it nothing is believed, whatever the terminal shows |
| Curses.Screen.Resize | prog/curses.h:746-755 | belief and terminal stay in step when the size changes; a size the arrays cannot hold is ignored |
| Curses.Screen.NoutRefresh | prog/curses.h:702-712 | where the window has the cursor, brought back to the edge if below the screen or to its right, and not if above or to its left |
| Curses.Screen.AddCh | prog/curses.h:386-408 | at most one cell changes, inside the window and the screen, and it is the character in its attributes |
| Curses.StartBold | prog/curses.h:966-1002 | started on a terminal that draws in bold, the library is wrong about it |
| Curses.Recolour | prog/curses.h:518-525 | initscr, a pair, a character in it, an update, other colours for the pair: the terminal does not show what the library believes |

## Findings

Properties that the code does not have. Each has the exact condition under which it
holds, proved for all inputs, and a run or an input on which it fails.

- **fat16_remove of `.` and `..`** (src/fat16.c:888-923). The leaf of a path is looked up
  like any name, and a directory that lists dot names only counts as empty. Removing
  `.` of an empty directory, or `..` of a directory of such a root, frees a directory
  that is still in use. `FatPath.Remove` states soundness iff the removal is not one of
  `Bad`; `FatRuns.RemoveDot` and `FatRuns.RemoveDotDot` are runs.
- **A name that is listed as a dot** (src/fat16.c:206-236, 888-923). The bytes C0 AE are
  taken for a full stop, so a directory with such a file in it counts as empty and its
  clusters are lost: `FatRuns.RemoveOverlong`. The same `Bad` says exactly when.
- **Long components** (src/fat16.c:531-571). A component of more than 95 bytes is not
  refused: what does not fit is taken for the next component. A path means the names
  between its slashes iff each of them fits (`FatWalk.LongComponent`);
  `FatRuns.WriteLong` is a run that writes a file into another directory.
- **A receive whose copy fails** (src/ipc.c:181-187) has taken the sender off its queue
  and leaves it blocked for ever. `Ipc.Kernel.Recv` states the invariant iff both
  buffers are mapped; `IpcRuns.LoseSender` is a run.
- **Id 0** (src/task.c:153-171, 447-457). The first task has id 0, and 0 in `wait_for`
  also means not waiting. Waiting for it, or retiring it while anybody is blocked who
  does not wait for a task to end, breaks the table: `Ipc.Kernel.Wait`,
  `Ipc.Kernel.Retire` and `Ipc.Kernel.Exit` state exactly when;
  `IpcRuns.WaitForFirst` and `IpcRuns.EndFirst` are runs.
- **ooo_drain on a full queue** (src/net_ip.c:987-1019). A turn that can queue nothing
  counts as progress, so the loop does not end once every byte from the expected one to
  the first past the window is held. `TcpDrain.DrainEnds` is the equivalence,
  `TcpDrain.OverrunRun` a run of three segments; a peer that keeps to the window it was
  told of cannot cause it (`TcpDrain.WindowEnds`).
- **SYS_SBRK below address 0** (src/task.c:502-553). The new break is an unsigned sum, so
  one below 0 comes out near 2^64 and is kept; within a page of it the rounding wraps to
  0 and every private page below the old break goes. `Vm.Spaces.Sbrk` and
  `Machine.System.Sbrk` state exactly when the heap stays in step with the break;
  `Machine.ShrinkPastZero` is a run.
- **A task born short of memory** (src/task.c:31-38, 210-218). Of the frames for stack and
  heap none is checked, nor whether it could be mapped. With n frames left once its
  table is made, pages of the stack lead to frame 0 iff n is 2 to 4 and there is no
  stack iff n is 0 or 1; a frame is lost iff n is 1 or 6; and iff n is 6 the break says
  there is a heap page where there is none (`VmBirth.Birth`, `Machine.System.New`).
  `VmBirth.StackOnZero` and `Machine.BornBroken` are runs.
- **Break 0** (src/task.c:504-540). A task born without a heap page has break 0, which
  SYS_SBRK takes for the bottom of the heap; giving anything back then raises the break
  by a page with nothing mapped. The condition of `Vm.Spaces.Sbrk` covers it;
  `Machine.ShrinkNothing` is a run.
- **A bind named with a slash at the end** (src/vfs.c:301-347), met by its name without
  the slash: the rest of the path is read from past its end. `VfsTable.AstrayIs` says
  exactly when a resolution comes to that; `Vfs.BindSlash` is a run.
- **Allocations of 2^63 bytes and more** (src/malloc.h:210-229). m__big refuses a size whose
  sum with the header wraps; a size just below that goes to sbrk as a negative number or
  as 0, sbrk answers the break, and the first store to it faults, since no page is mapped
  there. `HeapAllocator.Heap.Malloc`, `HeapAllocator.Heap.Calloc` and
  `HeapAllocator.Heap.Realloc` fault iff the size is one of those
  (`HeapAllocator.AskedIs`); `HeapAllocator.MallocHuge` is a run.
- **initscr on a terminal left in some look** (prog/curses.h:966-1002) believes it plain.
  `Curses.Screen.constructor` states that belief and terminal agree iff the look was
  plain; `Curses.StartBold` is a run.
- **init_pair of a pair in use** (prog/curses.h:518-525). What is on the glass stays in the
  old colours, and is not written again until it changes. `Curses.Screen.InitPair` states that belief and
  terminal stay in step iff the pair was not in use or looks as it did;
  `Curses.Recolour` is a run.
- **Sequence numbers 2^31 apart** (src/net_ip.c:503-508) are each before the other
  (`TcpSeq.HalfApart`). Of positions less than 2^32 apart the comparisons tell the order
  iff these are less than 2^31 apart (`TcpSeq.CompareExactly`), and every connection
  keeps its own that close.

## Left out

- FatVolume.Volume.constructor: takes the geometry of the boot sector as given; the checks fat16_init makes of it are not modelled.
- FatPath.FileSize: does not model the cast of a size of 2^31 or more to a negative int.
- Tcp.Tcb.Input: requires that data and FIN of the peer are slices of one stream inside the window it was told of (or older by less than 2^31); what becomes of the loop otherwise is TcpDrain.DrainEnds.
- Tcp.Tcb.RcvData: requires the same of the segments it is given.
- Tcp.Tcb.OooStore: requires the same of the segment it is given.
- Tcp.Tcb.RcvAccept: the interrupt character (a byte that kills a nominated task) is not modelled.
- Ipc.Kernel.Retire: requires fewer than 2^23 reuses of one slot, after which the id no longer fits an int.
- Ipc.Kernel.Exit: requires the same of the running task.
- Ipc.Kernel.Kill: requires the same of every slot.
- Machine.System.Retire: requires the same of the task it retires.
- Machine.System.constructor: requires a frame for the table of the first task, for which task_create does not look; the frames kmain takes for the kernel itself before that are not part of the arena.
- Vm.Spaces.MapPage: requires that the page leads nowhere or to that frame already; vm_map_at over another frame, which no modelled caller does, would lose it.
- Vm.Spaces.MapAt: the same for a range, and 4 KiB leaves only; the superpages of the kernel's own table are met by walks but not made.
- VmSpace.CopyAcross: requires that the buffers do not overlap in memory, for which memcpy promises nothing; VmSpace.TasksApart says exactly when they do.
- VmSpace.TasksApart: requires that the destination has no page that leads to frame 0, where an address does not tell bytes apart.
- Curses.Screen.Line: requires that every cell holds a character that prints; what a terminal does with the others is not modelled.
- Curses.Screen.DoUpdate: requires the same of the whole screen.
- Curses.Screen.constructor: a console of 24 lines and 80 columns; the branch for telnet is not modelled.
- Curses.Screen.InitPair: requires colours below 8, the ones curses names.
- Curses.Screen.Resize: requires that the terminal has the size the library settles on.
- Machine.System.Unmoved: stands for the calls of the kernel that move nobody; they are modelled one by one in Ipc.
- fat16_list, which copies a listing out; the listing itself is `FatScan.Listing`.
- vm_load_segment and the loading of programs; the pages it maps go through MapAt.
- Ethernet, ARP, IP, ICMP, UDP, DNS, checksums, the table of listening ports, and the text interface under /net.
- The server loops around the file system, the network and the console, and the programs under prog/ other than the curses library and the receive half of import.
- Locks (m__lock): operations of the allocator are taken one at a time, as the lock makes them.
- wgetch and the other window routines of curses, which build on waddch and on input.
- Trap entry and exit, satp and TLB handling, the PLIC and the UART.

# yagura: verified models of the kernel's core

A Dafny project that models the parts of the yagura kernel where several data
structures, CPUs or critical sections have to agree with each other, and proves
what they keep. `dafny verify dfyconfig.toml` verifies all of it.

| file | models |
|---|---|
| `Basics.dfy` | what several files share |
| `Mpsc.dfy` | the lock-free multiple-producer single-consumer ring, one atomic operation per step |
| `Shootdown.dfy` | TLB shootdown: messages, per-CPU queues and counted acknowledgements, any number of CPUs |
| `Frames.dfy`, `PageTable.dfy`, `Regions.dfy`, `Vm.dfy` | physical page allocator, page tables, region list, address-space operations with the object cache |
| `Sched.dfy` | the scheduler on one CPU, task references and reaping |
| `Resolve.dfy` | pathname resolution, symbolic links, mounts, printing of paths |
| `Inodes.dfy` | lifetime of tmpfs inodes: directory entries, links and references |
| `Socket.dfy` | listen, connect and accept of Unix sockets |
| `Pipe.dfy` | the ring buffer and pipes on it |
| `Vec.dfy` | the growable buffer behind file contents |
| `Vt.dfy`, `Sequences.dfy` | the terminal emulator and its incremental redraw; what text and control sequences do to it |
| `Calendar.dfy` | calendar arithmetic, both ways |

Concurrent components are state machines on values: a step is one atomic
operation (`Mpsc`, `Shootdown`) or one critical section (`Socket`, `Sched`), a
run is any sequence of enabled steps, and the main lemmas speak of every run.
Sequential components are classes whose methods follow the code; what they
promise is stated with functions and predicates on values. Conditions the code
asserts are preconditions of the helpers, or are proved never to fail.

Addresses in the memory modules are page numbers, so that alignment holds by
construction; `PageAlignRange` models the alignment itself. Time, I/O, wake-up
conditions and the outcome of memory allocation are parameters.

Findings that the contracts make precise:

- In-place growth of the last region may leave the address space's range. It
  stays in range exactly if the region is not last or does not pass the end
  (`Vm.ResizedRange`, with an instance in `Vm.GrowthLeavesRange`).
- `alloc_at` finds no clash with a region that starts in the range, and the
  insertion's assertion then fails. What it needs is that a region reaches over
  the address, which gives `EEXIST`, or that none starts in the range
  (`Vm.NoneStartsExactly`, `Vm.FitsExactly`, with an instance in
  `Vm.StartInRangeFails`); nor may the object cache put its own next page there.
- A followed symbolic link to a missing name gives `ENOENT` even with
  `O_ALLOW_NOENT`, unless two or more separators follow the link
  (`Resolve.DanglingLink`).
- After `vt_create`, the screen does not have the terminal's cursor until it
  moves: a flush brings the cursor to the screen exactly if it was marked or was
  there already (`Vt.Vt.Flush`, `Vt.Vt.constructor`).
- A task that is alone gives way to the idle task at every other tick, because
  the next task is chosen before the previous one is queued (`Sched.LoneTask`).
- `page_align_range` gives address 0 and size 0 for a range that reaches from
  the first page of the address space into the last, and for no other
  (`Vm.PageAlignRangeEncloses`).

## Model

| member | source | states |
|---|---|---|
| `Mpsc.MpscCorrect` | kernel/containers/mpsc.h:26-51 | for any number of producers and one consumer, in every interleaving of their atomic operations: no assertion fails at any step that could come next, what came out is a prefix of the elements the calls came with, in the order in which they drew tickets, and when all calls have returned the rest is in the ring, in order |
| `Mpsc.StepInv` | kernel/containers/mpsc.h:26-51 | every atomic operation passes its assertion and keeps the invariant that ties size, head, tail and slots to the tickets drawn, published and taken |
| `Mpsc.NullMeansNothingNext` | kernel/containers/mpsc.h:42-51 | dequeue finds its slot empty exactly if the element of the next ticket is not published yet |
| `Mpsc.TakenIsNext` | kernel/containers/mpsc.h:42-51 | an element taken out of a slot is the one whose ticket is next |
| `Mpsc.Quiescent` | kernel/containers/mpsc.h:15-51 | with nobody inside a call, size is the number of elements in the ring, these are exactly the accepted ones that have not come out, and the next enqueue is accepted exactly if they are fewer than the capacity |
| `Shootdown.ShootdownCorrect` | kernel/memory/page_table.c:116-172 | for every number of CPUs and every interleaving of flushes: no assertion fails, no send is refused; once a call has left its wait loop or returned, its CPU and every CPU its loop chose (for a kernel range, every CPU) hold, of the pages it was asked to flush, only translations loaded since it began; and a message in the pool is in no queue and in nobody's hands |
| `Shootdown.StepInv` | kernel/cpu.c:355-421 | every step of every CPU, sending, receiving, flushing or acknowledging, passes its assertions and keeps the protocol's invariant |
| `Shootdown.NeverRefused` | kernel/cpu.c:318-329 | the queue of a CPU that a message was not sent to has room, even with sends and receives half done, because there are as many messages as places |
| `Shootdown.LeftMeansFlushed` | kernel/memory/page_table.c:116-172 | when the count of outstanding acknowledgements was seen at zero, the CPU and every CPU asked have invalidated every page of the range that the call was given, since the call began |
| `Shootdown.FlushCorrect` | kernel/memory/page_table.c:116-172 | over every run, for the last call of each CPU, also one for a user range that needs no message: whatever translation of a page of its range is held at the end, by a CPU that was to flush, was loaded after the call began |
| `Shootdown.UnderwayStep` | kernel/memory/page_table.c:116-172 | every step of any CPU keeps the range, the mode and the CPUs chosen of a call that is under way, in its loop or in its message |
| `Shootdown.PooledNowhere` | kernel/cpu.c:374-390 | a pooled message is in no slot, with no sender, and with no CPU that processes it |
| `Frames.FrameAllocator.constructor` | kernel/memory/page.c:140-152 | the bitmap, the counts and the free-memory statistic agree at the start |
| `Frames.FrameAllocator.FindFirstSet` | kernel/memory/page.c:35-42 | the lowest free page, or none exactly if no page is free |
| `Frames.FrameAllocator.Alloc` | kernel/memory/page.c:154-173 | takes the first free page with count 1, fails exactly if none is free, and keeps bitmap, counts and statistic in agreement |
| `Frames.FrameAllocator.Ref` | kernel/memory/page.c:175-190 | one more owner, sticking at 255; pages outside the managed range are ignored |
| `Frames.FrameAllocator.Unref` | kernel/memory/page.c:192-215 | one owner less, unless stuck at 255; the last one frees the page, in bitmap and statistic |
| `PageTable.Directory.GetOrCreateTable` | kernel/memory/page_table.c:49-68 | a page table exists afterwards exactly if the call succeeds, which it does exactly if it existed or a page is free; no count in use changes |
| `PageTable.Directory.MapAnon` | kernel/memory/page_table.c:330-363 | each page of the range gets a page of its own that nothing else owns, or every entry and count is as before but for page tables created; it succeeds exactly if the free pages suffice for the pages and the missing page tables, and takes exactly those |
| `PageTable.Directory.MapPhys` | kernel/memory/page_table.c:365-397 | the range shows consecutive physical pages, each counted once more, or all is rolled back; it succeeds exactly if the free pages suffice for the missing page tables |
| `PageTable.Directory.ShallowCopy` | kernel/memory/page_table.c:399-435 | the destination shows the physical pages of the source with the new flags, or all is rolled back; it succeeds exactly if the free pages suffice for the missing page tables |
| `PageTable.Directory.Unmap` | kernel/memory/page_table.c:437-450 | exactly the entries of the range go, and counts follow their owners |
| `PageTable.Directory.SetFlags` | kernel/memory/page_table.c:452-465 | exactly the flags of the range change; frames, keys and counts stay |
| `PageTable.RollBack` | kernel/memory/page_table.c:330-435 | after a mapping call that failed, each count is saturated or is as before plus the page tables created in that page |
| `PageTable.SpendNext` | kernel/memory/page_table.c:330-435 | page by page, either the next page can be paid for or the whole range costs more free pages than there were |
| `PageTable.SoleOwner` | kernel/memory/page.c:192-215 | a page counted once is shown by one entry and is no page table |
| `PageTable.OwnedStay` | kernel/memory/page_table.c:330-363 | as long as every owner remains, no page in use is given back |
| `PageTable.PrivateSurvives` | kernel/memory/page_table.c:437-450 | unmapping other pages leaves a page that nothing else owns that way |
| `Regions.FlagsAtMeaning` | kernel/memory/vm.c:142-153 | the page map of a sorted, disjoint list says what the regions say and nothing else |
| `Regions.RegionList.Find` | kernel/memory/vm.c:142-153 | the region that covers a page, or none exactly if the page map has none |
| `Regions.RegionList.FindGap` | kernel/memory/vm.c:155-186 | the first gap behind a region that is large enough; none exactly if there is no such gap or the size exceeds the range |
| `Regions.RegionList.FindBefore` | kernel/memory/vm.c:317-332 | a clash exactly if some region starts before the page and reaches over it; otherwise the place that divides the list there |
| `Regions.RegionList.InsertAfter` | kernel/memory/vm.c:188-208 | the node is at its place in both directions of links, all others as before |
| `Regions.RegionList.Remove` | kernel/memory/vm.c:210-218 | the node is gone from both directions of links, all others as before |
| `Regions.RegionList.Relink` | kernel/memory/vm.c:561-565 | a node changed, taken out and linked in elsewhere: the same nodes, in the new order |
| `Vm.AddressSpace.Alloc` | kernel/memory/vm.c:277-307 | free pages get the flags, at the first fit among the regions as they are once the object cache grew, each on a page of its own and protected as the flags say; it succeeds exactly if a region object can be had, there is room and the free physical pages suffice; nothing else changes but for pages the object cache added; on failure only those |
| `Vm.AddressSpace.AllocAt` | kernel/memory/vm.c:309-349 | `EEXIST` only if the page was covered, success only if it was not; then exactly the range gets the flags and their protection; where the object cache need not grow, it succeeds exactly if a region object can be had, the page is free and the free physical pages suffice |
| `Vm.NoneStartsExactly` | kernel/memory/vm.c:317-331 | what `AllocAt` needs of the regions holds exactly if one reaches over the page or none starts in the range |
| `Vm.FitsExactly` | kernel/memory/vm.c:188-208 | the assertions of the insertion hold behind the cursor found exactly if no region starts in the range |
| `Vm.StartInRangeFails` | kernel/memory/vm.c:317-344 | an instance in which no clash is found and the insertion's assertion fails |
| `Vm.AddressSpace.SetFlags` | kernel/memory/vm.c:351-422 | in all four ways the range can lie in a region, exactly its pages get the flags, with the protection they stand for, and keep their frames: without write none of them is writable; `ENOENT` and `EINVAL` exactly under their conditions, and on any error nothing changes but for pages the object cache added |
| `Vm.AddressSpace.PhysMap` | kernel/memory/vm.c:424-456 | free pages, at the first fit once the object cache grew, get the flags with their protection and show the physical pages in order; it succeeds exactly if object, room and page tables can be had |
| `Vm.AddressSpace.Share` | kernel/memory/vm.c:470-499 | a shared mapping, at the first fit once the object cache grew, shows the same physical pages as its source, protected as its own flags say; it succeeds exactly if object, room and page tables can be had |
| `Vm.AddressSpace.CopyMap` | kernel/memory/vm.c:458-468 | a private mapping has pages of its own with the flags asked for; the call whose result is ignored cannot fail |
| `Vm.AddressSpace.Resize` | kernel/memory/vm.c:502-568 | shrinks, grows in place or moves, changing exactly those pages; pages added have frames that nothing else owns, and all are protected as the region's flags say; growth in place succeeds exactly if the free physical pages suffice; `ENOENT` and `EINVAL` exactly under their conditions, and nothing changes on any error; in range afterwards exactly if the last region did not pass the end |
| `Vm.AddressSpace.Move` | kernel/memory/vm.c:535-567 | a moved region's old pages keep their frames, the pages added get frames that nothing else owns, its old place is empty, everything else is as before |
| `Vm.NotOwnCursor` | kernel/memory/vm.c:524-540 | a region that cannot grow in place is never the one the gap was found behind |
| `Vm.ResizedRange` | kernel/memory/vm.c:522-533 | regions stay in range exactly if the resized one is not last or does not pass the end |
| `Vm.GrowthLeavesRange` | kernel/memory/vm.c:522-533 | an instance in which a resize leaves the range |
| `Vm.AddressSpace.Unmap` | kernel/memory/vm.c:570-610 | exactly the pages of the range lose region and entry, in all four ways it can lie in a region; `ENOENT` and `EINVAL` exactly under their conditions |
| `Vm.AddressSpace.Free` | kernel/memory/vm.c:737-757 | the whole region that starts at the page goes; otherwise nothing changes |
| `Vm.AddressSpace.EnsureCache` | kernel/memory/slab.c:18-59 | the object cache adds one page with its own region, keeping list and page table in agreement, exactly if it was empty and a page can be had; the page holds 203 objects |
| `Vm.AddressSpace.AllocRegion` | kernel/memory/slab.c:61-72 | an object, while the address space is changed at most by a page of the object cache |
| `Vm.AgreeRemapped` | kernel/memory/vm.c:264-610 | a change made to the same range of page map and page table keeps them in agreement |
| `Vm.RegionsProtect` | kernel/memory/vm.c:247-275 | in an address space whose list and table agree, each page of a region can be written exactly if the region's flags say so, and likewise for user, global, shared and cache attributes; a page in no region has no entry; in the kernel's none is the user's |
| `Vm.ResizedProtects` | kernel/memory/vm.c:502-568 | after a resize every page of the region is protected as its flags say |
| `Vm.CutRemaps` | kernel/memory/vm.c:362-414 | cutting a range out of a region, or recolouring it, changes exactly those pages of the page map and keeps the list sorted and disjoint |
| `Vm.PageAlignRangeEncloses` | kernel/memory/vm.c:615-620 | the smallest range of whole pages around a range, exactly if it does not reach from the first page into the last; then it is (0, 0) |
| `Sched.StepInv` | kernel/sched.c:32-244 | every event keeps tasks, queue, list and reference counts consistent |
| `Sched.OneStateOnly` | kernel/sched.c:32-135 | after any run from boot, a task is in exactly one of running, ready, blocked and dead, once in the queue, its references are its shares as listed or waited for and as scheduled, and the list is in the order of tids |
| `Sched.FreedOnlyWhenReaped` | kernel/task.c:267-297 | a task goes, or its memory is given back, only when it is dead, off every list, and given up by the task that waited for it; the initial task's memory, with tid 0, never is |
| `Sched.Fifo` | kernel/sched.c:32-66 | over any run, the task at place k of the queue moves up with every switch and is dispatched by the (k+1)-th |
| `Sched.WokenExactly` | kernel/sched.c:92-119 | after every switch, by a tick, a block or an exit, a task that was blocked is on the CPU or in the queue exactly if, at its turn, it was interruptible and signalled, or waited for an event that had come, or for a child where a target was dead or nobody was one; it is told whether it was interrupted, and otherwise left as it was |
| `Sched.WokenIsDispatched` | kernel/sched.c:54-119 | such a task runs, or has a place k in the queue and runs after the (k+1)-th switch of any run |
| `Sched.SleepsOn` | kernel/sched.c:224-244 | over any run that does not bring its event, an uninterruptible task goes on sleeping whatever signals come, an interruptible one as long as none comes |
| `Sched.LoneTask` | kernel/sched.c:121-164 | a task that is alone gives way to the idle task and runs again after the next switch |
| `Sched.ListSorted` | kernel/sched.c:68-90 | every event keeps the list of tasks in the order of their tids |
| `Sched.WaitTakes` | kernel/syscall/task.c:381-427 | with pid -1 a child of the caller is taken, above 0 that thread group, with 0 a task of the caller's process group, below -1 one of the group -pid; it is dead and comes off the list; where nothing is taken nobody qualifies, dead or alive |
| `Sched.ExitPersons` | kernel/task.c:338-347 | a task that exits is dead, its children and no others become init's, and nobody else dies |
| `Sched.ExitNoticed` | kernel/syscall/task.c:381-427 | when a child exits, a task blocked waiting for its children runs or is queued, unless another waiter has taken the child |
| `Sched.CollectOk` | kernel/syscall/task.c:456-462 | giving up the task waited for takes that task away and no other, and gives its memory back unless its tid is 0 |
| `Sched.Cpu.EnqueueReady` | kernel/sched.c:32-52 | the task is at the end of the queue; its assertions are the precondition |
| `Sched.Cpu.DequeueReady` | kernel/sched.c:54-66 | the head of the queue, or the idle task if it is empty |
| `Sched.Cpu.Register` | kernel/sched.c:68-90 | the new task is listed by tid, queued, and counted twice |
| `Sched.Cpu.UnblockTasks` | kernel/sched.c:92-119 | the loop over the list does what unblocking one task after the other does |
| `Sched.Cpu.SwitchContext` | kernel/sched.c:121-166 | the next task is taken off the queue before the previous one goes back, and no assertion on the way fails |
| `Sched.Cpu.Block` | kernel/sched.c:224-244 | the current task is blocked, counted once less, and another one runs |
| `Sched.Cpu.Exit` | kernel/task.c:338-348 | children pass to init, the task is dead and counted once less, another one runs |
| `Sched.Cpu.TaskUnref` | kernel/task.c:272-297 | one reference less; the last one frees a task that is not current, unless its tid is 0 |
| `Sched.Cpu.UnblockWaitpid` | kernel/syscall/task.c:381-427 | takes the first dead target off the list, or reports that there is no target, or that there is nothing yet |
| `Sched.Cpu.Collect` | kernel/syscall/task.c:456-462 | the waiter gives up the task it waited for |
| `Resolve.RoundTrip` | kernel/fs/vfs.c:233-349 | the string printed for a path that resolution gave, resolved again with the same flags from any base, gives the same names and inodes |
| `Resolve.RoundTripAnyFlags` | kernel/fs/vfs.c:233-349 | and with any other flags, if the last component exists and is no link |
| `Resolve.WalkWellFormed` | kernel/fs/vfs.c:250-333 | resolution yields only chains in which each inode is what lookup and mount following give in its parent, with no link before the end |
| `Resolve.ResolvePathAt` | kernel/fs/vfs.c:233-337 | the loop over components terminates in every tree, never fails the depth assertion, computes the walk over the components, and follows no more than SYMLOOP_MAX + 1 links |
| `Resolve.FollowSymlink` | kernel/fs/vfs.c:204-231 | resolution goes on with the target's components followed by the rest, from the root if the target is absolute or empty; this call and those below it are counted among the links followed |
| `Resolve.ResolveThen` | kernel/fs/vfs.c:233-337 | resolving a/b is resolving b from where a/. leads, the links followed on the way being counted, and fails as a/. does |
| `Resolve.ParentDirectory` | kernel/fs/vfs.c:256-265 | for every pathname, base, tree and flags, s/.. leads to the parent of where s/. leads, from the root to the root, and fails as s/. does |
| `Resolve.NotADirectory` | kernel/fs/fs.c:36-42 | a name behind something that is no directory gives `ENOTDIR` |
| `Resolve.FewLinks` | kernel/fs/vfs.c:299-317 | the links followed, counted by `Resolve.ResolvePathAt` and `Resolve.FollowSymlink` call by call, are at most SYMLOOP_MAX + 1, in any tree |
| `Resolve.LinkToItself` | kernel/fs/vfs.c:299-317 | a link to itself is followed exactly that often and then gives `ELOOP` |
| `Resolve.DanglingLink` | kernel/fs/vfs.c:276-314 | a link to a missing name, for any flags and any run of separators behind it: not followed, the link itself or `ELOOP`; followed, the missing name exactly if `O_ALLOW_NOENT` is given and at least two separators follow, otherwise `ENOENT` |
| `Resolve.ResolveMounts` | kernel/fs/vfs.c:75-93 | terminates in every mount table built from fresh guests, at an inode nothing is mounted on |
| `Resolve.MountCovers` | kernel/fs/vfs.c:54-73 | a new mount covers what was on top of its host and changes nothing else |
| `Resolve.GuestsAreNewer` | kernel/fs/tmpfs.c:147-162 | because guests are fresh, whatever is mounted on a guest was mounted after it |
| `Resolve.StaleGuestsLoop` | kernel/fs/vfs.c:78-88 | without fresh guests the search can go on for ever |
| `Resolve.NextComponent` | common/string.c:175-204 | the first component and the rest, as the split of the pathname has them |
| `Resolve.ComponentsJoin` | kernel/fs/vfs.c:221-228 | joining two pathnames with a separator joins their components |
| `Resolve.PathToString` | kernel/fs/path.c:7-36 | the buffer filled from its end holds the printed path, and is as long as was measured |
| `Inodes.Tmpfs.Unref` | kernel/fs/fs.c:19-25 | gives up one reference; where it was the last and no entry is left the inode goes, and with it what only it referred to; while another reference or an entry is left, nothing goes |
| `Inodes.Tmpfs.Destroy` | kernel/fs/tmpfs.c:15-20 | clears a directory recursively, terminating; each inode is destroyed once, never while held or named |
| `Inodes.Tmpfs.ClearFirst` | kernel/fs/dentry.c:120-130 | one entry goes and its reference with it; the assertion on num_links holds |
| `Inodes.Tmpfs.LookupChild` | kernel/fs/tmpfs.c:22-29 | the reference to the directory becomes one to the child; errors exactly if it is no directory or has no such name |
| `Inodes.Tmpfs.LinkChild` | kernel/fs/fs.c:54-67 | a new entry takes over the child's reference, or both references are given up; the outcome in each case |
| `Inodes.Tmpfs.Link` | kernel/fs/dentry.c:61-96 | `EEXIST` exactly if the name is listed; num_links counts the new entry |
| `Inodes.Tmpfs.UnlinkChild` | kernel/fs/fs.c:69-79 | exactly the named entry goes, and the inode if nothing else refers to it |
| `Inodes.Tmpfs.CreateChild` | kernel/fs/tmpfs.c:124-145 | a new inode with one entry and the caller's reference; where it cannot be linked it is destroyed |
| `Inodes.OnlyUnreferencedGo` | kernel/fs/fs.c:14-34 | what an operation destroyed was held by nobody and named by no remaining directory; whatever remains is held or named |
| `Inodes.UnnameInv` | kernel/fs/dentry.c:98-118 | removing an entry keeps num_links equal to the number of entries and ref_count equal to that plus the references held |
| `Inodes.NameInv` | kernel/fs/dentry.c:61-96 | adding an entry keeps them too |
| `Socket.ChainCorrect` | kernel/unix_socket.c:191-312 | in every interleaving: num_pending is the length of the chain that the links spell out, sockets leave in the order they joined, none joins twice |
| `Socket.HeldCorrect` | kernel/unix_socket.c:216-253 | in every interleaving: a socket is in at most one chain; one that accept took off is in none, held by one thread, and pending |
| `Socket.StepInv` | kernel/unix_socket.c:191-312 | every critical section keeps the invariant |
| `Socket.PendingAssertion` | kernel/unix_socket.c:246-251 | accept's assertion never fails |
| `Socket.AcceptConnects` | kernel/unix_socket.c:216-253 | the socket that accept took off a chain is the one it connects, whatever comes between |
| `Socket.ChainSteps` | kernel/unix_socket.c:216-312 | connect puts a new socket at the end of a chain exactly if fewer than the backlog are waiting, accept takes off its head exactly if there is one, nothing else changes it |
| `Socket.Sockets.Listen` | kernel/unix_socket.c:191-210 | accepted exactly if the socket is bound and new or listening already |
| `Socket.Sockets.Connect` | kernel/unix_socket.c:259-309 | each error exactly under its condition; otherwise the socket is at the end of the listener's chain |
| `Socket.Sockets.Take` | kernel/unix_socket.c:233-241 | the head of the chain, or nothing if it is empty |
| `Socket.Sockets.Finish` | kernel/unix_socket.c:246-251 | the socket taken, pending until then, is connected |
| `Pipe.RingBuf.Read` | kernel/containers/ring_buf.h:32-44 | as many bytes as there are or were asked for, in order, leave the buffer |
| `Pipe.RingBuf.Write` | kernel/containers/ring_buf.h:46-58 | a prefix of the bytes joins the buffer; it falls short only if the buffer is full |
| `Pipe.RingBuf.IsFull` | kernel/containers/ring_buf.h:28-30 | full means one place less than the capacity |
| `Pipe.Fifo.Read` | kernel/fs/fifo.c:91-115 | as many bytes as were asked for or are unread, in order, so that what was received is a prefix of what was sent, with less than the capacity in between; end of file exactly if nothing sent is unread and no writer is left |
| `Pipe.Fifo.Write` | kernel/fs/fifo.c:122-152 | as many bytes as there is room for are sent; `EPIPE` exactly if no reader is left, and the call waits exactly if the pipe is full |
| `Vec.Vec.Pwrite` | kernel/containers/vec.c:69-83 | the content with the bytes written over it, a hole filled with zeros; it fails exactly if the capacity cannot hold that and cannot grow, and then all is as before |
| `Vec.Vec.Resize` | kernel/containers/vec.c:51-67 | the content cut, or extended with zeros; it fails exactly if the capacity cannot hold that and cannot grow, and then all is as before |
| `Vec.Vec.Pread` | kernel/containers/vec.c:9-17 | the bytes of the content from the offset on, as many as were asked for or as there are |
| `Vec.Vec.GrowCapacity` | kernel/containers/vec.c:19-40 | the content stays, storage behind it is zero, and the assertion on the capacity holds |
| `Vec.Vec.Reserve` | kernel/containers/vec.c:42-49 | room for the additional bytes, with the content unchanged; it fails exactly if the size overflows or the capacity cannot grow |
| `Vec.Vec.Append` | kernel/containers/vec.c:85-87 | the bytes follow the content |
| `Vec.WrittenReadsBack` | kernel/containers/vec.c:69-83 | reading back gives the bytes written, zeros in the hole, and the old content elsewhere |
| `Vec.Slice` | kernel/containers/vec.c:9-17 | a read is short only at the end of the content, and gives its bytes in order |
| `Vec.ShrinkThenGrow` | kernel/containers/vec.c:51-67 | what was cut off reads as zeros after growing again |
| `Vec.CapacityOverflow` | kernel/containers/vec.c:19-29 | the capacity cannot grow exactly where a size does not fit in 32 bits |
| `Vec.CapacityGrows` | kernel/containers/vec.c:19-29 | otherwise it grows to whole pages, at least to the size requested |
| `Vt.Vt.Flush` | kernel/console/vt.c:97-124 | although only marked rows are drawn, and the screen may be cleared first, every row shows its cells; the cursor is in place exactly if it was marked or was there |
| `Vt.Vt.Write` | kernel/console/vt.c:459-462 | the terminal is what the bytes, one after the other, make of it; printable bytes that fit in the rest of the row are found there in order, and nothing else changed |
| `Vt.Vt.WriteAndFlush` | kernel/console/vt.c:97-124 | after any bytes and a flush, every cell of the screen shows what they made of the grid; printable bytes that fit in the row are shown there in order |
| `Vt.Vt.OneByte` | kernel/console/vt.c:444-457 | one character, in each mode, as a step of the terminal as a value: cursor, colours, mode, parameters and every cell |
| `Vt.TextFills` | kernel/console/vt.c:155-174 | printable text of any length that there is room for fills the grid in reading order, going on in the next row at the right edge; nothing else changes |
| `Vt.TextInRow` | kernel/console/vt.c:155-174 | text that fits in the rest of the row is found there byte for byte |
| `Sequences.AtoiReads` | common/stdlib.c:4-17 | atoi reads back every number below 2^31 written in decimal |
| `Sequences.SequenceActs` | kernel/console/vt.c:177-442 | ESC [, parameters and a final byte do what the final byte stands for, and leave no trace else |
| `Sequences.CursorPosition` | kernel/console/vt.c:265-293 | row and column in decimal put the cursor there, counted from 1, or at the edge |
| `Sequences.CursorMoves` | kernel/console/vt.c:189-230 | n in decimal moves the cursor up, down, right or left by n, as far as the grid reaches |
| `Sequences.ClearsAll` | kernel/console/vt.c:296-315 | 2 J clears every cell and leaves the cursor |
| `Sequences.ClearsRestOfRow` | kernel/console/vt.c:318-331 | K clears the row from the cursor on, and nothing else |
| `Sequences.SelectsColour` | kernel/console/vt.c:334-374 | the numbers of SGR select the eight colours and the eight bright ones, for text and behind it |
| `Sequences.HidesCursor` | kernel/console/vt.c:377-392 | ? 25 h and l show and hide the cursor |
| `Sequences.TextAt` | kernel/console/vt.c:155-293 | text sent behind a cursor position is found at that position |
| `Sequences.LineFeed` | kernel/console/vt.c:141-147 | the start of the next row, or in the last row a grid moved up by one |
| `Sequences.Tab` | kernel/console/vt.c:152-154 | the next column that is a multiple of eight, or the right edge |
| `Sequences.TypeAndTakeBack` | kernel/console/vt.c:148-170 | as many backspaces as there were characters bring the cursor back, if the text did not reach the edge |
| `Vt.Vt.OnChar` | kernel/console/vt.c:444-457 | the effect of a character in each mode on cells, cursor, colours and visibility |
| `Vt.Vt.HandleGround` | kernel/console/vt.c:133-175 | where the cursor goes, whether the grid scrolls, and what every cell holds afterwards |
| `Vt.Vt.HandleCsi` | kernel/console/vt.c:394-442 | where the cursor goes, which colours and visibility result, and exactly which cells are cleared; a NUL byte ends the parameters |
| `Vt.Vt.MoveCursor` | kernel/console/vt.c:189-252 | relative movement, inside the grid even where the 32-bit sum wraps |
| `Vt.Vt.PlaceCursor` | kernel/console/vt.c:255-293 | absolute placement, kept inside the grid |
| `Vt.Vt.Erase` | kernel/console/vt.c:296-331 | exactly the cells before, behind or around the cursor are cleared |
| `Vt.Vt.SelectGraphicRendition` | kernel/console/vt.c:334-374 | the colours after all parameters, in order |
| `Vt.Vt.CursorMode` | kernel/console/vt.c:377-392 | shows or hides the cursor and marks exactly its row; any other parameter changes nothing |
| `Vt.Vt.SetCursor` | kernel/console/vt.c:55-62 | the row left and the row entered are marked, no other |
| `Vt.Vt.ClearLineAt` | kernel/console/vt.c:64-73 | exactly the stretch of the row is cleared, and the row marked |
| `Vt.Vt.ScrollUp` | kernel/console/vt.c:89-95 | every row moves up, the last one is cleared |
| `Vt.Vt.constructor` | kernel/console/vt.c:464-500 | a new terminal shows its grid, but the screen does not have its cursor |
| `Vt.Screen.Put` | kernel/console/screen/fb.c:43-66 | one cell is drawn, with colours exchanged under a visible cursor |
| `Vt.GroundMove` | kernel/console/vt.c:133-175 | every character leaves the cursor inside the grid and is printed inside it |
| `Vt.CsiCursor` | kernel/console/vt.c:189-293 | every control sequence leaves the cursor inside the grid, whatever its parameters |
| `Calendar.Gmtime` | userland/lib/time.c:31-68 | for every time from the epoch on: fields in range, counting back gives the time, the weekday is that of the day count |
| `Calendar.WeekdayCorrect` | common/calendar.h:31-41 | the closed form is (days since the epoch + 4) mod 7 |
| `Calendar.SecondsInjective` | kernel/drivers/rtc.c:74-77 | times with the same count of seconds are the same, so the two directions are inverse |
| `Calendar.SecondsOf` | kernel/drivers/rtc.c:74-77 | the count of seconds of a calendar time |
| `Calendar.DaysSinceEpoch` | kernel/drivers/rtc.c:16-22 | the loop over years counts the days before the date |
| `Calendar.DayOfYear` | common/calendar.h:23-29 | the loop over months counts the days of the year before the date, fewer than the year has |
| `Calendar.DaysBeforeYearClosed` | common/calendar.h:5-11 | the days before a year in closed form |

## Left out

- Bitmap words: the bitmap of free pages is an array of booleans; packing into 32-bit words is not modelled.
- Relaxed memory orders: atomic operations interleave under sequential consistency.
- `page_directory_destroy_current` and other teardown of whole address spaces, `vm_clone`, quickmap, recursive-mapping addresses and copies of the kernel half of a directory.
- User ranges in shootdown: which CPUs run a task of the same address space is chosen freely by the model, the race in that choice is not analysed.
- IPI_MESSAGE_HALT, the delivery of interrupts, panic, boot, ACPI, APIC, PCI and drivers.
- vm_alloc, vm_alloc_at and the other wrappers: argument checks, choice of the address space and locking are not modelled beyond the alignment.
- Vm.AddressSpace.CopyMap: does not model the bytes copied by memcpy.
- Vm.AddressSpace: a region object in the slab page it describes is an ordinary object here; the address it lies at is not modelled, and for address spaces other than the kernel's the outcome of the object cache is a parameter.
- More than one CPU in the scheduler, temporary references from task_find_by_tid, thread groups and the sending of signals.
- Sched.Cpu.UnblockTasks: walks the list as it was at the start; a task taken off meanwhile is dead, so it would be passed over anyway.
- Lists in the scheduler, sockets and directories are sequences or maps from identities; the allocation of their nodes is not modelled.
- Resolve: running out of memory, references on the inodes of a path, and NUL bytes inside link targets are not modelled; the tree and the mount table do not change during a resolution.
- Inodes: open files and paths are counted references; file_close's own count, special files, bound sockets and extra references kept by mount following are not modelled.
- Sockets: reading, writing, shutdown, closing and the wait for a connection to be accepted are not modelled.
- Pipes: named FIFOs, blocking and signals are not modelled; a section that has to wait says so.
- Vec.Vec.Pwrite: does not model offsets from 4 GiB on, where 64-bit sizes are cut to 32 bits; the same holds for Vec.Vec.Resize and Vec.Vec.Reserve.
- vec_mmap, vec_printf and pages changed through shared mappings of a file.
- Vt.Vt.HandleCsi: does not model the 1024-byte limit of the parameter buffer; parameters are a sequence.
- Vt.Vt.SetCursor: the row index one past the last, which a line feed marks for a moment, has a slot of its own.
- Calendar.Gmtime: years are unbounded; the wrap of 32-bit years, far beyond any clock, is not modelled.
- tty.c and the buffer write that evicts the oldest bytes.
- ELF loading, user copies, userland programs and inline assembly.

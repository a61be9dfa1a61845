# NID verification project

A Dafny model of the hard parts of a network block device: the kernel driver's request
pipeline, the server's cyclic data stream, the intrusive lists and their merge sort, the
overlap sweep, the upgradable reader/writer lock, the message codec, the lease locks, and the
agent's channel machine with its delete protocol and keepalive watchdog.

Each concurrent part is a transition system with one step per critical section (or per
unlocked access, where that matters), an arbitrary environment, and theorems about every
reachable state. Each part that works in place also has a class or methods on arrays, heap
nodes or fields, proved against the functions that the theorems are about.

`dafny verify dfyconfig.toml` checks everything.

| module | subject |
|---|---|
| `Driver`, `DriverSafety`, `DriverDevice` | four queues, two sockets, batching, replies, purge, recovery |
| `DriverPaths`, `DriverOrder` | each request's path, the order after recovery |
| `DriverReads`, `DriverDrift` | the data that READs get, how far the length counters drift |
| `DriverFlags`, `DriverFifo` | where a request may be by its flags, the order of unanswered WRITEs |
| `Cds`, `CdsSafety`, `CdsDevice` | paged ring buffer as an append-only stream |
| `Nodes`, `ListOps` | list operations on linked nodes |
| `MergeSpec`, `ListSortCounter`, `ListSort` | bottom-up merge sort on linked nodes |
| `Olap` | points covered at least twice |
| `Lck`, `LckGrants`, `LckNode` | reader/writer/upgrade lock, any number of threads |
| `Codec`, `CodecLayout`, `CodecBuffer` | tagged-item messages, their bytes, the cursor through a buffer |
| `Lease`, `LeaseGuardian` | named leases with expiry |
| `Dsm`, `Agent`, `AgentSteps`, `AgentWatch` | channel states, operation counter, delete, watchdog |
| `Arith`, `Common` | division facts, shared types |

## Results about the code that differ from what one might expect

- The driver counts TRIM requests on the wrong queue: a batch splice keeps the length counters
  exact if and only if the batch has no TRIM (`DriverSafety.LensSplice`), and one TRIM is enough
  to break them (`DriverSafety.TrimBreaksCounters`). In every run ctl_rcv is longer than its counter
  says by exactly the TRIMs spliced since the last recovery that found it with entries
  (`DriverDrift.GapIsTrims`), and the counter of ctl_snd is too large by what that gap grew since
  the last batch was taken (`DriverDrift.ExcessIsGrowth`). The counter can be negative, also after
  a recovery (`DriverDrift.NegativeSurvivesRecovery`).
- Recovery splices behind the first entry of `ctl_snd_queue`. Each old queue keeps its own order
  (`DriverSafety.RecoveryLosesNothing`), but requests are sent again oldest first if and only if
  that first entry is the oldest and then dat_snd, ctl_rcv, dat_rcv and the rest of ctl_snd follow
  each other in age (`DriverOrder.OldestFirstIff`). So a request that still waits overtakes every
  older one in flight (`DriverOrder.WaitingOvertakes`, `DriverOrder.RecoveryOvertakes`).
- The reader counter of the lock has 16 bits: exclusion holds in all runs of a set of threads if
  and only if there are fewer than 65536 of them (`Lck.ExclusionIff`). No lost wake-up and no
  global stall hold for any number.
- The block-size item is stored with a 64-bit store but advances four bytes. The encoder clears
  bytes behind the message if and only if it carries the block size and fewer than four bytes of
  items after it, and then exactly as many as are missing to four (`CodecBuffer.CleansIff`): four
  when the block size comes last (`CodecBuffer.BlockSizeAlone`), none when the device size follows
  (`CodecBuffer.SizeFollows`).
- A lock that is taken fresh or taken over records the time before its request got the list
  lock, a renewal the time after it. Measured from the grant, the full lease is kept if and only
  if the grant was a renewal or that wait did not cross a second (`Lease.FullLeaseIff`).
- Two kinds of work hold no count: the up hook that a refused upgrade queues, and a start reply that
  handed its count to a hook job and has yet to move the channel. A zero counter means that nothing
  is at work if and only if neither is pending (`Agent.CounterIsWork`,
  `Agent.HandedReplyHoldsNoCount`). Such a reply is never pending in a deletable state; but a delete
  can go through, even under the list lock, while an up hook is (`Agent.UpHookOutlivesDelete`).
- A delete call without the list lock reads the operation counter and the state separately. What
  it saw is still true at its DELETE transition if and only if no start request was waiting for
  the driver's answer when it read zero (`Agent.ZeroReadLastsIff`, `Agent.DeleteRace`); with the
  list lock held it always is (`Agent.DeleteFindsNothingAtWork`).
- Of the messages in its buffer the driver's receive loop dispatches exactly those before the first
  request that it has no case for (`Codec.StreamServed`).

## Model

| member | source | states |
|---|---|---|
| `DriverSafety.DataStreamExact` | src/kernel/dev.c:700-853 | In every run and every connection, the bytes put on the data socket are a prefix of the WRITE payloads in header order, and each header's dseq is the offset of its payload there, over batching, partial sends, failures and recovery. |
| `DriverSafety.ServerReadsPayload` | src/kernel/dev.c:284-292 | A server that cuts the stream at a header's dseq gets exactly that request's payload, once enough bytes arrived. |
| `DriverReads.ReadsGetServerBytes` | src/kernel/dev.c:372-448 | In every run, however the server's bytes arrive, and across put-back, failures and recovery, each READ that ended without an error got exactly the bytes that the server sent for it. |
| `DriverReads.DataIsNext` | src/kernel/dev.c:489-583 | What has arrived for the READ in the receiver's hands is the beginning of what the server sent for it, and the server's stream goes on with the rest. |
| `DriverReads.StepInv` | src/kernel/dev.c:372-583 | Every step of pipeline and server keeps: the server's blocks belong, in order, to the READ in hand, to dat_rcv in queue order, and to the reply being dispatched; what has arrived is the beginning of these blocks. |
| `DriverReads.ReadIsDelivered` | src/kernel/dev.c:489-583 | For every READ and every data of its length, a run that delivers it, the data cut anywhere and arriving before and after the reply. |
| `DriverSafety.StreamStep` | src/kernel/dev.c:801-878 | Every step of every thread keeps: what is not on the wire yet is in hand, on dat_snd or in the batch, in header order. |
| `DriverFlags.ConnectionsKept` | src/kernel/dev.c:1238-1250 | What a connection carried until it was stopped stays on the record that the stream theorem speaks about. |
| `DriverFifo.WritesStayInOrder` | src/kernel/dev.c:801-853 | In every run, while connected, the WRITEs that wait for their reply, are to be sent, or are in the batch at hand are in the order of their headers. |
| `DriverFifo.SendQueueIsFifo` | src/kernel/dev.c:1509-1511 | Between batches, purges and recoveries, what the handlers queue comes behind what is on ctl_snd, in the order of handling. |
| `DriverSafety.EachRequestOnce` | src/kernel/dev.c:106-129 | For any replies, duplicate, unknown or failing: each fetched request is in exactly one queue, in one thread's hands, or ended; it ends at most once; nr_req is the number fetched and not ended. |
| `DriverSafety.PlacesStep` | src/kernel/dev.c:334-448 | No step loses or duplicates a request; only its fetch adds it. |
| `DriverSafety.LifeCycles` | src/kernel/dev.c:96-105 | Which command may be where: only WRITEs are sent as data, only READs are received as data, no bad command gets past header filling. The order of the places is `DriverPaths.LifeCycleWords`. |
| `DriverFlags.FlagsDecide` | src/kernel/dev.c:251-288 | In every run, by the request's own flags: only file system writes without discard on a writable device are on dat_snd, being sent, in a batch's write list or among the headers of any connection; only file system reads are on dat_rcv or being received; nothing bad waits for a reply. |
| `DriverFlags.NothingEnters` | src/kernel/dev.c:1495-1507 | While error_now is set no request gets into the pipeline. |
| `DriverPaths.LifeCycleWords` | src/kernel/dev.c:96-105 | In every run each request's places, one after the other, are a walk along its command's life cycle that starts before its fetch; recovery starts it again at ctl_snd, purge and errors end it, and an ended request stays ended. |
| `DriverPaths.PathStep` | src/kernel/dev.c:334-448 | Every step of every thread leaves a request where it is or moves it along one edge of its command's life cycle. |
| `DriverPaths.PlainIsDocumented` | src/kernel/dev.c:96-105 | Without errors, put-back, purge and recovery every place has one successor: the next one of the documented cycle. |
| `DriverSafety.RecoveryLosesNothing` | src/kernel/dev.c:1258-1282 | Recovery leaves on ctl_snd exactly the requests of all four queues, the others empty, each old queue in its own order inside the new one. |
| `DriverSafety.RecoveredQueueComplete` | src/kernel/dev.c:1238-1287 | After recovery in any run ctl_snd holds every unfinished request exactly once, except those a handler or purge has in hand, and the device can be started. |
| `DriverOrder.RecoveredOrder` | src/kernel/dev.c:1258-1282 | The recovered queue, entry for entry: the first entry, then dat_snd, ctl_rcv, dat_rcv and the rest of ctl_snd; what is first when queues are empty. |
| `DriverOrder.OldestFirstIff` | src/kernel/dev.c:1258-1282 | For any ages, the recovered queue is oldest first if and only if these stretches are and follow each other in age. |
| `DriverOrder.WaitingOvertakes` | src/kernel/dev.c:1258-1282 | With a request waiting on ctl_snd and an older one in flight the recovered queue is out of order. |
| `DriverOrder.RecoveryOvertakes` | src/kernel/dev.c:1238-1287 | A run with two requests after whose recovery the newer one is sent first. |
| `DriverSafety.LensStep` | src/kernel/dev.c:834-841 | Every step but the batch splice keeps exact length counters exact: send, receive, put-back, purge, recovery. |
| `DriverSafety.LensSplice` | src/kernel/dev.c:752-766 | The batch splice keeps the counters exact if and only if the batch has no TRIM. |
| `DriverSafety.CountersExact` | src/kernel/dev.c:752-766 | In every run without TRIM requests the four counters are the true queue lengths. |
| `DriverSafety.TrimBreaksCounters` | src/kernel/dev.c:762-764 | A run with a single TRIM that ends with a wrong counter. |
| `DriverDrift.GapIsTrims` | src/kernel/dev.c:752-766 | In every run ctl_rcv is longer than its counter says by the number of TRIMs spliced since the last recovery that found ctl_rcv with entries. |
| `DriverDrift.ExcessIsGrowth` | src/kernel/dev.c:912-921 | In every run the counter of ctl_snd exceeds its queue by what that gap grew since the last batch was taken. |
| `DriverDrift.ExactIffNoTrims` | src/kernel/dev.c:752-766 | The four counters are exact if and only if no TRIM was spliced in the gap of now, nor in the gap at the time the last batch was taken. |
| `DriverDrift.DriftEverywhere` | src/kernel/dev.c:700-766 | Every reachable state has the beginnings that these statements count from. |
| `DriverDrift.GapStep` | src/kernel/dev.c:1258-1282 | One step: a recovery that finds ctl_rcv with entries closes the gap, a splice widens it by its TRIMs, only the taking of a batch changes the difference of the two errors. |
| `DriverDrift.NegativeSurvivesRecovery` | src/kernel/dev.c:1268-1272 | A run after whose recovery the counter of ctl_rcv is negative. |
| `DriverDevice.BatchIsRun` | src/kernel/dev.c:700-799 | Handling a working list in one go is a run of the single steps and gives the batch result. |
| `DriverDevice.NidDevice.EndIo` | src/kernel/dev.c:106-129 | In place: one more request ended, one fewer counted. |
| `DriverDevice.NidDevice.QueueRequest` | src/kernel/dev.c:1477-1518 | The handler's critical section: queues the request, or ends it when the device is failing. |
| `DriverDevice.NidDevice.FillHeaders` | src/kernel/dev.c:712-750 | The header loop: by its own flags each request goes to the right list, in batch order; plain writes get consecutive dseqs; requests that are no file system request, and writes to a read-only device, end. |
| `DriverDevice.NidDevice.SpliceLists` | src/kernel/dev.c:752-766 | The three lists are appended and counted as the source does it. |
| `DriverDevice.NidDevice.HandleReqList` | src/kernel/dev.c:700-799 | The whole batch, equal to the batch result: a request of ctl_snd goes to dat_snd exactly if it is a plain write on a writable device, to ctl_rcv exactly if it is a read or a discard on a writable device, and ends exactly otherwise. |
| `DriverDevice.NidDevice.FindRequest` | src/kernel/dev.c:334-370 | The search loop takes out the first request with the reply's handle, or nothing. |
| `DriverDevice.NidDevice.PurgeQue` | src/kernel/dev.c:1148-1212 | Purge ends every queued request in queue order and leaves the queues empty and counted so. |
| `DriverDevice.NidDevice.RecoverPending` | src/kernel/dev.c:1258-1282 | The three splices and counter updates equal the recovery step. |
| `CdsSafety.OutstandingReadsStream` | src/user/cds.c:108-176 | In every reachable state that was not stopped, a byte that is ready and not returned is read through its position as the byte of the append-only stream with that number: the writer never overwrites outstanding data. |
| `CdsSafety.LentIsFree` | src/user/cds.c:157-159 | In every reachable state that was not stopped, the buffer handed to the writer begins at the position of the next sequence number and ends with its page, and no byte in it is confirmed and outstanding. |
| `CdsSafety.WaitsIff` | src/user/cds.c:119-149 | In every reachable state that was not stopped, the writer waits if and only if it needs a new page and some byte of the page a whole buffer earlier is not returned; it is never sent away. |
| `CdsSafety.NullIff` | src/user/cds.c:143-148 | The writer is sent away exactly when it needs a page after a stop. |
| `CdsSafety.ReadyMeans` | src/user/cds.c:255-261 | Ready says that every byte below the number was confirmed. |
| `CdsSafety.PageAccounting` | src/user/cds.c:178-201 | The occupied counter is the number of returned bytes of the page's current generation, always below a page; a page is free exactly when all bytes of its generation were confirmed and returned. |
| `CdsSafety.ApplyInv` | src/user/cds.c:108-253 | Every operation of writer and readers but the stop keeps the ring invariant. |
| `CdsSafety.PutTwoSlots` | src/user/cds.c:223-253 | A piece across a page border credits the first page with what is left of it and the second with the rest, whatever the high half of the sequence number is. |
| `CdsSafety.SplitSums` | src/user/cds.c:240-243 | The two credited parts add up to the length although the 32-bit mask drops the high half. |
| `CdsSafety.PositionLengthFits` | src/user/cds.c:272-295 | The answered length keeps the range inside the buffer, with byte i at the position of start+i, and is cut only at the buffer's end. |
| `CdsSafety.ReturnByAddress` | src/user/cds.c:203-221 | Returning by address changes the pages as returning by sequence number does, if and only if the piece lies in one page. |
| `Cds.InitializationOk` | src/user/cds.c:351-377 | Whatever the setup says, the geometry is usable and the buffer size fits 32 bits. |
| `Cds.InitializationIs` | src/user/cds.c:363-371 | Shifts in range are used; otherwise 16 pages of 8 MiB. |
| `CdsDevice.CdsChannel.constructor` | src/user/cds.c:53-90 | A new channel is the model's initial state. |
| `CdsDevice.CdsChannel.NextPage` | src/user/cds.c:119-126 | In place: a full page makes the writer move to the next slot, with wrap-around. |
| `CdsDevice.CdsChannel.GetBuffer` | src/user/cds.c:108-159 | In place: next page, wait, stop or lend, as the model says. |
| `CdsDevice.CdsChannel.Confirm` | src/user/cds.c:169-176 | In place: the lent bytes become stream bytes. |
| `CdsDevice.CdsChannel.TryToFreePage` | src/user/cds.c:178-201 | In place: a full page is cleared and released, an overfull one reported. |
| `CdsDevice.CdsChannel.PutBuffer` | src/user/cds.c:223-253 | In place: the return by sequence number. |
| `CdsDevice.CdsChannel.PutBuffer2` | src/user/cds.c:203-221 | In place: the return by address. |
| `ListSort.ListSort` | src/user/list_sort.c:95-137 | For any circular list and any total preorder: afterwards the head is a well-formed circular doubly linked list of a sorted, stable permutation of the same nodes; no other node is touched. |
| `ListSort.MergeChains` | src/user/list_sort.c:12-32 | Merges two null-terminated chains in place into the chain of their merge, ties from the first. |
| `ListSort.MergeAndRestoreBackLinks` | src/user/list_sort.c:41-79 | The last merge leaves a well-formed ring with all back links. |
| `ListSort.Insert` | src/user/list_sort.c:113-130 | One turn of the counter: slots below the cap hold nothing or exactly 2^lev nodes, higher slots hold earlier input, each slot is sorted, the top slot is filled. |
| `ListSort.CarryUp` | src/user/list_sort.c:118-121 | The inner loop: the new node is merged upwards to the first empty slot, input order kept. |
| `ListSort.CountAll` | src/user/list_sort.c:113-130 | The first loop: all nodes are counted in, the slots joined from the top are the input. |
| `ListSort.Collapse` | src/user/list_sort.c:132-134 | Merging the lower slots gives the sorted later part of the input. |
| `MergeSpec.SortConcat` | src/user/list_sort.c:118-121 | Merging two sorted stretches, earlier on the left, sorts their concatenation. |
| `MergeSpec.MergeAssoc` | src/user/list_sort.c:12-32 | Merging is associative for a total preorder. |
| `MergeSpec.SortIsStableSort` | src/user/list_sort.c:81-94 | The plain sort is sorted, a permutation, and keeps the order of equal elements. |
| `ListSortCounter.CarryJoins` | src/user/list_sort.c:118-121 | Emptying a slot into the carried list keeps the input order over all slots. |
| `ListSortCounter.StoreStep` | src/user/list_sort.c:122-129 | Storing the carried list, one below the sentinel at the cap, keeps the counter invariant and the top slot. |
| `ListOps.Add` | src/user/list.h:52-60 | On nodes: insertion after a node is insertion at the front of the ring seen from it. |
| `ListOps.ListAdd` | src/user/list.h:75-78 | Refines prepending. |
| `ListOps.ListAddTail` | src/user/list.h:89-92 | Refines appending. |
| `ListOps.Del` | src/user/list.h:101-105 | Closing the gap takes the node out of the ring. |
| `ListOps.ListDel` | src/user/list.h:114-119 | Refines removal of an entry; the entry's links are cleared. |
| `ListOps.ListDelInit` | src/user/list.h:159-163 | Refines removal; the entry becomes an empty list. |
| `ListOps.ListMoveTail` | src/user/list.h:181-186 | Refines moving an entry to the end of another list. |
| `ListOps.ListMoveTailSame` | src/user/list.h:181-186 | Refines moving an entry to the end of its own list. |
| `ListOps.Splice` | src/user/list.h:276-288 | Hangs one ring's entries behind a node of another. |
| `ListOps.ListSplice` | src/user/list.h:295-300 | Refines concatenation in front; nothing for an empty list. |
| `ListOps.ListSpliceTail` | src/user/list.h:307-312 | Refines concatenation at the end. |
| `ListOps.ListSpliceInit` | src/user/list.h:321-328 | As above, and the source list is empty afterwards. |
| `ListOps.ListSpliceTailInit` | src/user/list.h:338-345 | As above, at the end. |
| `ListOps.SpliceAtFirst` | src/kernel/dev.c:1263-1279 | Splicing at the first entry puts the new entries behind it, as the driver's recovery does. |
| `ListOps.CutAt` | src/user/list.h:236-246 | Splits a ring behind an entry into two well-formed rings. |
| `ListOps.ListCutPosition` | src/user/list.h:262-274 | Splits the list behind the entry; head as entry empties the target; the early returns change nothing. |
| `ListOps.Rotate` | src/user/list.h:25-27 | A ring is the same circle from every node: next and prev are mutually inverse. |
| `ListOps.InitListHead` | src/user/list.h:39-43 | The node becomes an empty list. |
| `ListOps.EmptyMeans` | src/user/list.h:203-234 | The emptiness and singularity tests on pointers say that the sequence has no or one entry. |
| `Olap.GetOverlap` | src/user/olap.c:22-75 | For intervals sorted by offset, the output is sorted, disjoint, without empty entries, of least size class, and covers exactly the points that at least two inputs cover. |
| `Olap.AddOverlap` | src/user/olap.c:50-72 | Appends exactly the part of an overlap that lies behind the output. |
| `Olap.StepSweep` | src/user/olap.c:31-60 | One turn keeps the sweep's meaning: depth, double cover and reach. |
| `Olap.SizeClassLeast` | src/user/olap.c:63-65 | The order is the least power of two not below the length. |
| `Lck.ExclusionIff` | src/user/lck.c:19-111 | A writer past its second wait excludes all holders and writers, and an upgraded reader all others, in all runs of a set of threads, if and only if there are fewer than 65536 threads. |
| `Lck.ReaderCount` | src/user/lck.c:30-42 | The counter is the number of read holders modulo 65536, and equal to it below 65536 threads. |
| `Lck.NoLostWakeup` | src/user/lck.c:43-46 | For any number of threads, a sleeper that was not woken still has to wait. |
| `Lck.NoGlobalStall` | src/user/lck.c:27-29 | For any number of threads, while somebody sleeps somebody holds the lock without waiting or was woken. |
| `Lck.OwnersStep` | src/user/lck.c:50-66 | Each critical section keeps: one write owner when wbusy, one upgrader when ubusy, the counter exact. |
| `Lck.Violation` | src/user/lck.c:84-98 | With 65536 readers an upgrade goes through at once. |
| `LckGrants.GrantsIff` | src/user/lck.c:19-111 | Below 65536 threads, in every run, what each call gets by what the others do: readers in if and only if nobody owns the write or upgrade side, writers owners if and only if nobody is and in if and only if nobody reads, upgraders through if and only if they are the only reader. |
| `LckGrants.WakesExactly` | src/user/lck.c:34-48 | Which steps wake a sleeper, and that the others do not. |
| `LckNode.Node.Rlock` | src/user/lck.c:19-32 | The critical section on the fields is the protocol step. |
| `LckNode.Node.Runlock` | src/user/lck.c:34-48 | The critical section on the fields is the protocol step. |
| `LckNode.Node.Wlock` | src/user/lck.c:50-66 | The critical section on the fields is the protocol step. |
| `LckNode.Node.Drain` | src/user/lck.c:62-64 | The woken writer's test of the reader count is the protocol step. |
| `LckNode.Node.Wunlock` | src/user/lck.c:68-79 | The critical section on the fields is the protocol step. |
| `LckNode.Node.Uplock` | src/user/lck.c:84-98 | The critical section on the fields is the protocol step. |
| `LckNode.Node.Raise` | src/user/lck.c:94-96 | The woken upgrader's test of the reader count is the protocol step. |
| `LckNode.Node.Downlock` | src/user/lck.c:100-111 | The critical section on the fields is the protocol step. |
| `Codec.RoundTrip` | src/shared/mpk.c:515-953 | Decoding an encoded message followed by any bytes gives that message, with exactly its fields, and takes exactly its bytes; the uuid of a release has fewer than 1024 bytes. |
| `Codec.StreamRoundTrip` | src/kernel/drv.c:66-193 | Any concatenation of encoded messages decodes to the messages in order. |
| `Codec.StreamServed` | src/kernel/drv.c:66-193 | Of any concatenation of encoded messages the receive loop dispatches, in order, exactly those before the first whose request is not 3, 10, 12, 19, 36 or 43, and ends at that one or at the end. |
| `Codec.TablesAgree` | src/shared/mpk.c:571-935 | The decoder's switch gives every item the layout the encoder wrote it with. |
| `Codec.TablesComplete` | src/shared/mpk.c:571-935 | The encoder's order has every item that the decoder's switch accepts. |
| `Codec.TagsDistinct` | src/shared/nid_shared.h:130-225 | No two fields of a message body share an item tag. |
| `Codec.ItemsRoundTrip` | src/shared/mpk.c:73-484 | The present items, written in the encoder's order, are read back, absent ones stay absent. |
| `Codec.ValueRoundTrip` | src/shared/mpk_subr.c:24-288 | Numbers of every width and counted bytes are read back with their length. |
| `Codec.AnyOrder` | src/shared/mpk.c:567-936 | The decoder takes known items in any order and any number. |
| `Codec.LastCounts` | src/shared/mpk.c:567-936 | Of items sent more than once the last one counts. |
| `CodecLayout.MessageLayout` | src/shared/mpk.c:29-503 | Every byte of an encoded message: request, code, the total length in four bytes, and each present item in table order as its tag and its value; numbers most significant byte first, counts before counted bytes, the host-order item least significant byte first. |
| `CodecLayout.ValueLayout` | src/shared/mpk.c:73-484 | The bytes of every kind of value, digit by digit. |
| `CodecLayout.WireOrder` | src/shared/mpk.c:73-484 | In which order a general message carries its items. |
| `CodecLayout.KnownRequests` | src/shared/mpk.c:41-72 | Which requests and codes can be encoded. |
| `CodecLayout.VecLayout` | src/shared/mpk_subr.c:77-103 | A vec request, byte by byte. |
| `CodecLayout.ReleaseLayout` | src/shared/mpk_subr.c:24-42 | A release request, byte by byte. |
| `CodecLayout.DoaLayout` | src/shared/mpk_subr.c:105-171 | A lease request, byte by byte. |
| `CodecLayout.BlockSizeLayout` | src/shared/mpk.c:212-218 | The block size alone, byte by byte. |
| `CodecBuffer.EncodeInto` | src/shared/mpk.c:29-503 | The cursor encoder writes exactly the encoded message, clears exactly the bytes behind it that the block size's store reaches, changes nothing further on, and needs no more room than that; unknown requests and codes fail. |
| `CodecBuffer.PutItems` | src/shared/mpk.c:73-484 | The item stores, one after the other, give the encoded items; exactly the bytes behind them that the block size reaches are cleared. |
| `CodecBuffer.PutItem` | src/shared/mpk.c:212-218 | One present item is stored at the cursor; the bytes cleared behind it are those left over from an earlier block size, or the four of its own. |
| `CodecBuffer.CleansIff` | src/shared/mpk.c:212-218 | Bytes behind a message are cleared if and only if it carries the block size and fewer than four bytes of items after it, and then as many as are missing to four. |
| `CodecBuffer.SizeFollows` | src/user/ascg.c:989-1006 | A message that carries the device size clears nothing behind itself. |
| `CodecBuffer.BlockSizeAlone` | src/shared/mpk.c:212-218 | A valid message for which four bytes are cleared. |
| `CodecBuffer.TakeItems` | src/shared/mpk.c:567-936 | The item loop over the buffer is the decoding function. |
| `CodecBuffer.DecodeFrom` | src/shared/mpk.c:515-953 | The decoder at a cursor is the decoding function. |
| `CodecBuffer.ProcessAll` | src/kernel/drv.c:66-193 | The loop over the buffer dispatches and ends as the stream function says: at an error, at a request it has no case for, or at the end. |
| `Lease.LeaseExclusion` | src/user/doa.c:82-121 | In every run: between two grants of one lock to different owners without a release, the clock passes the first owner's last recorded renewal by more than that grant's timeout. |
| `Lease.OneRecordPerId` | src/user/doacg.c:96-127 | In every run there is at most one record per lock id. |
| `Lease.CString` | src/user/doacg.c:107-108 | A copied name counts up to its first zero byte. |
| `Lease.Find` | src/user/doacg.c:110-119 | The first record of the id, or none. |
| `Lease.RequestEffect` | src/user/doacg.c:129-185 | A request answers 1 exactly when the requester is the recorded owner afterwards; owner and timeout of the answer are the recorded ones. |
| `Lease.RequestGrants` | src/user/doa.c:82-121 | Granted exactly to a new lock, the owner, or after expiry; the renewal time recorded in each case. |
| `Lease.RequestOthers` | src/user/doacg.c:151-175 | A request leaves the other locks alone. |
| `Lease.ReleaseEffect` | src/user/doacg.c:187-230 | A release succeeds exactly for the owner, removes the record, and leaves the others. |
| `Lease.FullLeaseIff` | src/user/doa.c:34-54 | For every grant, fresh, taken over or renewed: the lock is kept from every other owner for its whole timeout after the grant if and only if it was a renewal or its request did not wait into a later second. |
| `Lease.CheckAnswers` | src/user/doacg.c:232-263 | In every run a check answers 1 with owner and timeout exactly if the last thing that happened to the lock was that grant, and 0 with the requester's own name and timeout if it was released or never granted. |
| `Lease.DatesExact` | src/user/doa.c:82-121 | In every run a record's initial time is the renewal recorded when its owner got the lock, and its last renewal the one before the present one. |
| `LeaseGuardian.Guardian.CheckDoa` | src/user/doacg.c:96-127 | The list walk finds the first record of the id. |
| `LeaseGuardian.Guardian.Request` | src/user/doacg.c:129-185 | In place: record and answer as the model says, and the time since the recorded renewal. |
| `LeaseGuardian.Guardian.Release` | src/user/doacg.c:187-230 | In place: record removed or kept as the model says. |
| `LeaseGuardian.Guardian.Check` | src/user/doacg.c:232-263 | Answers from the record with the time since its renewal, or 0 with the caller's hold time unchanged. |
| `Dsm.OpTableChecks` | src/user/dsm.c:139-160 | The operation table is what the view promises, for every state and operation. |
| `Dsm.DeletableIff` | src/user/dsm.c:346-359 | Delete is offered exactly in the states whose delete transition leads to DELETE. |
| `Agent.CounterIsWork` | src/user/asc.c:509-529 | In every run the operation counter is everything at work apart from up hooks and start replies that handed their count to a hook job: accepted unfinished start and hook jobs, unanswered ioerrors, the other driver replies and housekeeping gets in progress. A zero counter means that nothing is at work if and only if no up hook and no handed reply is pending. There is at most one handed reply, only in IWS and RW, so never in a deletable state. |
| `Agent.HandedReplyHoldsNoCount` | src/user/asc.c:962-975 | A run to a zero counter with no up hook pending, in which a driver reply is about to move the channel from IWS to WORK. |
| `Agent.DeleteFindsNothingAtWork` | src/user/ascg.c:738-822 | A delete that read zero in a deletable state, or under the list lock, reaches the DELETE transition with a zero counter and a deletable state; nothing is at work then if and only if no up hook is pending. |
| `Agent.DeletedStaysIdle` | src/user/ascg.c:1271-1315 | In every run from that transition on the counter stays zero, no up hook is added, and when the channel is freed nothing is at work. |
| `Agent.UpHookOutlivesDelete` | src/user/asc.c:674-684 | A run in which a refused upgrade's up hook is pending while a delete has read a zero counter and a deletable state, with or without the list lock. |
| `Agent.ZeroReadLastsIff` | src/user/ascg.c:787-800 | Between the two unlocked reads others can make the state deletable with a non-zero counter, if and only if a start request was waiting for the driver's answer. |
| `Agent.DeleteRace` | src/user/ascg.c:1355-1386 | A run in which a delete passes both reads while a hook job is in progress. |
| `Agent.StepInv` | src/user/asc.c:962-1028 | Every step of jobs, housekeeping, driver replies and delete keeps the channel invariant. |
| `AgentSteps.StateMoves` | src/user/dsm.c:20-44 | Every step of every run moves the state along the named ways: INIT, IWI, IWS, WORK, RECOVER, RW, WORK, and from INIT, WORK and RECOVER to DELETE and out. |
| `AgentSteps.DeleterSteps` | src/user/ascg.c:770-822 | An unlocked delete tries until its transition; a locked one gives up, with the lock, exactly when the counter is not zero or the state not deletable. |
| `AgentSteps.IoErrorsOneByOne` | src/user/ascg.c:384-402 | In every run at most one ioerror request is with the driver, and one goes there only in RECOVER. |
| `AgentSteps.FreedHasNoJobs` | src/user/asc.c:693-750 | In every run, also after a lost race, a channel is freed only when none of its jobs is queued or running. |
| `AgentWatch.SavedCountExact` | src/user/asc-sm.c:586-610 | Over whole runs the saved count is the number of stuck non-busy keepalives since the last progress or busy report, and the saved numbers are those of the last report with progress. |
| `AgentWatch.KeepaliveTimer` | src/user/asc-sm.c:612-618 | Ten or more stuck reports force the timer to expire, fewer refresh it. |
| `AgentWatch.ForcedRecovery` | src/user/asc-sm.c:185-202 | With the timer forced, the next housekeeping asks for recovery unless it already has. |
| `AgentWatch.RequestsSeparated` | src/user/asc-sm.c:158-202 | Two recover requests are separated by a driver recover reply. |
| `AgentWatch.SilenceEndsInRecovery` | src/user/asc-sm.c:185-202 | Ten housekeeping turns without a keepalive answer end in a recover request, fewer do not. |
| `AgentWatch.TurnSends` | src/user/asc-sm.c:142-211 | What a turn in WORK sends, after every possible history: nothing while a recover request waits for its answer; a recover request when the server is stuck or nine turns passed without a report; of the other turns since the start every second one a keepalive message. |
| `AgentWatch.OneOfTwoTurns` | src/user/asc-sm.c:204-210 | Of two such turns with only reports between them exactly one sends a keepalive message. |
| `AgentWatch.HistoryExplains` | src/user/asc-sm.c:142-211 | Both timers, the pending flag and the WORK state, by the history alone. |
| `AgentWatch.TimersInRange` | src/user/asc-sm.c:204-210 | Both timers stay in range; in WORK the send timer runs. |
| `AgentWatch.Asc.RdevKeepalive` | src/user/asc-sm.c:586-620 | In place: the report's effect. |
| `AgentWatch.Asc.WHousekeeping` | src/user/asc-sm.c:142-211 | In place: timers, flag and what is sent. |
| `AgentWatch.Asc.RdevRecoverChannel` | src/user/asc-sm.c:562-583 | In place: the flag is cleared and WORK is left. |
| `AgentWatch.Asc.RdevStartChannel` | src/user/asc-sm.c:502-527 | In place: WORK is entered with full timers. |

## Left out

- Driver sockets, kernel threads and the block layer: environment steps that may fail; the bytes on the control socket are not modelled, only the headers' order and dseq.
- Driver request payloads are fixed when a request is fetched; a reply may come even while the request's data is being sent, which allows more runs than a well-behaved server.
- Driver purge: the test and the pop of one request are one step, and purge does not overlap with recovery; a channel is started only after stop or recovery finished; disconnect is terminal.
- Driver batches are not limited to 1024 requests.
- DriverReads assumes a server whose successful READ replies come in the order of its data, with as many bytes for each as the request asks; a data receiver that failed is not used again before the next start, as in the source.
- Cds after a stop: a stopped writer has moved to a page that it does not own, so nothing is claimed then.
- Cds returns and confirms are single steps, and sequence numbers do not wrap at 64 bits.
- CdsDevice.CdsChannel.GetBuffer: the timed sleep is a Wait answer after which the writer calls again.
- ListSort.ListSort: the comparison depends on the nodes' identity only, so it does not change while the sort relinks them; its calls with equal arguments in the last loop have no effect and are omitted.
- ListOps methods name the nodes of the lists concerned in their modifies clauses, not the two or four nodes actually written; list_replace and list_move are not modelled.
- Olap.GetOverlap: offsets and lengths are unbounded naturals, so 64-bit overflow of offset plus length is not modelled.
- Lck assumes the clients' discipline: one mode per thread, uplock by one reader at a time, downlock before runlock.
- Codec models fields as unsigned bit patterns of their width, and a message's strings as values instead of pointers into the buffer.
- Codec on malformed input: the source reads past the end of short messages and skips unknown items in one of its bodies; the model answers an error instead, and claims are about encoder output only.
- Codec release messages with a uuid of 1024 bytes or more: the source does not check and writes behind the 1024-byte field; a valid message of the model has a shorter one.
- Codec: what the driver does with a dispatched message is not part of this model.
- Lease names are not limited to 1024 bytes, and clock readings and hold times are whole seconds without a bound.
- Agent models one channel; channels share only the list lock. The operation counter does not wrap at 32 bits, and the busy flag and need-start flag are left open, which allows more runs.
- Agent assumes that an accepted job is done exactly once and a rejected one never, and that the driver answers init and start requests once each, in the states that wait for them. One delete call works on a channel at a time.
- Agent liveness: an ioerror answer that arrives after the channel moved to the delete list is not looked up by the source, so a delete may wait forever.
- The transport: opening sockets, the netlink and ioctl calls between agent and driver, the thread pool and the message queues that carry jobs and messages; here they are the steps' order.
- The management clients, each of which sends one request and shows the answer, and the parsing of configuration files.
- The storage behind the server: write caches, replication, snapshots, radix trees, digests and hash tables.

# Verification of the backend utilities

A Dafny model of the batching utilities of the Triton backend repository, with
proofs that they deliver the right bytes to the right place and answer every
request exactly once.  `dafny verify dfyconfig.toml` checks all of it.

## What is modelled

**Memory and the device** (`DeviceMemory.dfy`, `Device.dfy`).  Memory maps
locations to bytes; a location has an address space and an address.  Regions that
the allocator hands out are spaces of their own, so they overlap nothing, and a buffer
that the server hands out belongs to its response.  The CUDA
stream is the list of copies that have been issued and are not known to have
finished; what the stream leads to is the memory after all of them.  An event covers
a prefix of the stream.  The device also keeps a record of everything that has been
issued, and by whom it is performed; with the moments at which responses failed this
tells which copies went to responses that had been sent.  Copies, allocations, kernel launches and calls into the
server succeed or fail freely.  Two rules of the original that are easy to break are
preconditions of `CopyBuffer`, and so must be shown wherever it is called: no
outstanding copy conflicts with the new one, and a tensor buffer is ready before it
is written.  Because of the first rule it does not matter how far the device has got
with its stream (`DeviceProgressIsInvisible`).

**The input collector** (`InputIterator.dfy`, `InputBytes.dfy`, `Collector.dfy`,
`Gather.dfy`).  The iterator walks the buffers of one input over all requests and
merges adjacent ones.  The collector sends each chunk down one of its routes: a
direct copy, the pinned window (staged and copied on, deferred to `Finalize`, or
copied directly when there is no staging memory), or the kernel window (one launch,
or direct copies).  A chunk is an *obligation*: either its bytes arrive at the offset
that the chunks before it leave free, or all its responses fail.  `Delivery.dfy` and
`GatherView.dfy` hold what every step keeps of all obligations, as facts about values.

**The asynchronous staging branch** (`AsyncStaging.dfy`, `AsyncRuns.dfy`,
`AsyncOvertaking.dfy`).  How a window is split into tasks, and a state machine of any
number of flushes beside the collector's own thread.  Its steps, in any order, are the
copies and counter decrements of the worker tasks, the test, the wait and the clearing
of the ready event that all of them share, the sends, direct copies, and the copies that
the device performs.  What it keeps
are the obligations of the sequential collector, so `AllDelivered` says of every
schedule what `Finalize` says of the sequential branch.

**The gather kernel** (`GatherKernel.dfy`) is a state machine whose steps are the
element copies of the lanes, in any order, with 32-bit sizes, offsets and indices.
`LaunchGather` takes over its exact condition: when it holds, every schedule of the
kernel comes to the same as the copies of the window on the stream; when it does not, the
device has gone *astray*, and from then on nothing is claimed about memory.

**The output responder** (`ScatterView.dfy`, `Responder.dfy`, `Scatter.dfy`,
`LateCopies.dfy`) cuts a tensor into the responses, for outputs, states and batch
outputs, through the same kind of staging.

**Execute** (`Execute.dfy`, `Responses.dfy`) is the recommended backend's execute
function: gather, use the gathered input as output, scatter, send, release.  It never
waits for the device, so what its responses carry depends on the schedule.
`Schedules.dfy` is the machine that performs what has been issued: the host step by
step, the device whenever it gets to it.  `Sending.dfy` says of every response exactly
when all schedules agree on its bytes, and `ModelInstanceExecute` says it of what the
execute function has issued.

**Smaller parts**: element counts and byte sizes (`Shapes.dfy`), the batch-input
index tensors (`BatchInput.dfy`), the string parser (`StringBuffer.dfy`) and the
memory tracker (`MemoryTracker.dfy`).

## Where the code falls short of the general claim

Each of these is proved with its exact condition.

- A request without buffers ends the walk of the iterator, and the requests behind it
  are not delivered although their responses do not fail: `DeliveredIsEverything`
  says exactly when everything is delivered, `EmptyRequestEndsTheWalk` gives inputs.
  The tensor keeps what it held there (`GatherBatch`), and that is what such a response
  carries (`UnreachedKeeps`, `UnreachedRun`).
- The completion counter of the asynchronous branch starts at min(n, W), but
  ceil(n / ceil(n / W)) tasks are made: `CompletesExactlyWhen` says exactly when the
  two agree, `FiveOverFour` gives an input for which the completion never happens.
- The asynchronous branch does not ask whether its copies into the staging region went
  to the stream.  When they did and the tensor is in host memory, the region is sent
  before it is filled.  When every flush is `Orderly` everything is delivered
  (`AllDelivered`), and `DeliversExactlyWhen` shows of every flush that this is needed:
  `SendOvertakes` is the run that fails, `DeviceBufferOvertaken` gives inputs.
- The gather kernel counts in 32-bit ints.  `GathersExactlyWhen` gives the exact
  condition on a launch; `FarBlock`, `HugeBlock` and `WrappingLane` are inputs for the
  three ways to fail it.  `GatherBatch` promises that no kernel goes astray if it holds
  for all windows that can be launched, and `SmallTensorsFit` is a simple sufficient
  condition.
- The recommended backend logs that its collector asks for a wait, and goes on without
  one.  `Collect` says exactly when that happens: the device has to copy some of the
  input (`NeedsWait`), as for the inputs of `DeviceBatchNeedsWait`.  Which responses
  suffer is decided one by one: `CarriesExactlyWhen` is the exact condition, in terms of
  where the request's buffers and its response's buffer lie, `ChainDelivers` the reason
  that the others are right in every schedule, and `StaleRun` the run that fails.
- The responses are sent before output copies to GPU memory have run.
  `InTimeExactlyWhen` is the exact condition for a response to be right when it is sent,
  `UnsentRun` the run that fails.
- `ProcessTensor` of the responder overwrites the first dimension of the caller's shape.
  `SameVectorAgain` says exactly when a second call with the same vector goes wrong.
- After a slice was lost on its way into staging memory and its responses were sent, the
  responder still copies its parts to their buffers, and `Finalize` does so for responses
  lost before it.  `HandOut`, `Finalize` and, for a whole batch, `ScatterBatch` say exactly
  to which, also when some of these copies are refused; `FlushThroughStaging` says it for
  inputs of that kind, a tensor in GPU memory and buffers in host memory.
- The item kinds of a batch input write one item even if the batch is empty, and the
  first cell before anything is checked: `ProcessBatchInput` says exactly when that is
  behind the end of the buffer, `EmptyLastOverruns` gives inputs.
- A buffer of size 0 that the caller gives to `ProcessInput` is not gathered into, and no
  response fails for it although nothing fits.
- Merging one memory usage into another leaves the valid flag of the left one alone:
  `MergedLedger` says exactly when the result can be trusted, `MergeHidesInvalid` gives
  an input.
- A shape without dimensions has 0 elements, not 1 (`GetElementCount`).

## How the code is read

- The conversion of the work queue's result to a server error has no success case
  (`src/backend_common.cc:113-118`), so as written every added task would also be
  reported as refused.  The model takes success to be no error, as the branch intends.
- The member that is called `ProcessInput` here is the second overload of
  `ProcessTensor`.  `finalized_` marks entries of the asynchronous branch only and has
  no counterpart in the sequential model.
- The copies of `DeferredPinned::Finalize` leave `copy_on_stream` at its default,
  false, whatever the collector was built with; the model does the same.
- Integers are unbounded except where the text above says 32 bits.
- `refusals` records which responses refused copies and refused server calls were for.
  With it, contracts say exactly which responses are lost.

## Model

| member | source | states |
|---|---|---|
| DeviceMemory.InsertCopy | src/backend_input_collector.cc:359-371 | A copy that nothing queued behind it conflicts with can move to the end of the stream without changing what the stream leads to |
| DeviceMemory.HostCopy | src/backend_input_collector.cc:519-526 | A copy the host performs while the stream is outstanding acts as if it came after the whole stream, provided the two do not conflict |
| DeviceMemory.DeviceProgressIsInvisible | src/backend_common.cc:690-706 | However much of its stream the device has already worked off when the host copies, the outcome is the same |
| Devices.Device.CopyBuffer | src/backend_common.cc:658-740 | Host copies run at once unless they are asked onto the stream, everything else goes to the stream; a null pointer or a refusal changes nothing, and every refusal is noted with the responses the copy was for; every copy that is not refused is noted with who performs it, and is the next step of the host in the machine of Schedules; callers must show that no outstanding copy conflicts and that a tensor buffer is ready before it is written |
| Devices.Device.SynchronizeEvent | src/backend_input_collector.cc:362-371 | Waiting for the event runs exactly the copies it covers and leaves the eventual memory as it was |
| Devices.Device.LaunchGather | src/backend_input_collector.cc:1302-1310 | A launch either changes nothing, or leads to the memory in which every schedule of the kernel on these buffers and offsets ends, if every block fits its 32-bit ints, and else the device has gone astray; callers must show that its copies conflict with nothing outstanding |
| Responses.ResponseSet.FailRange | include/triton/backend/backend_common.h:126-138 | An error is sent for, and only for, each response in the range that is not null yet, which is then nulled; no response is ever sent twice; and it is noted how many copies had been issued by then |
| Responses.ResponseSet.SendRemaining | examples/backends/recommended/src/recommended.cc:670-679 | Afterwards every request has had exactly one final response |
| InputIteration.InputIterator.GetNextContiguousInput | src/backend_input_collector.cc:61-137 | Delivers the longest run of adjacent buffers (one buffer without coalescing) merged into a chunk, and afterwards exactly the buffers behind it remain |
| InputIteration.InputIterator.constructor | src/backend_input_collector.cc:42-59 | The iterator starts with everything it will ever deliver |
| InputIteration.InputIterator.ExtendWithinRequest | src/backend_input_collector.cc:101-118 | Merges buffers of the current request up to the first one that is not adjacent |
| InputIteration.InputIterator.ExtendRun | src/backend_input_collector.cc:100-136 | Merging goes on across requests and stops exactly where the next buffer is not adjacent |
| InputIteration.InputIterator.FinishSingle | src/backend_input_collector.cc:78-98 | Without coalescing, one buffer is used up and the walk is at its end only behind the last one to be delivered |
| InputIteration.FlattenOrdered | src/backend_input_collector.cc:61-137 | Buffers come in request order |
| InputIteration.ExtendMerge | src/backend_input_collector.cc:110-117 | Comparing the end of a merged chunk with the next pointer decides whether the next buffer extends the run |
| InputIteration.RunLengthUnique | src/backend_input_collector.cc:100-136 | The longest run of adjacent buffers is the only run that cannot be extended |
| InputBytes.DeliveredIsEverything | src/backend_input_collector.cc:65-67 | The iterator delivers every buffer of every request if and only if nothing stands behind the request that ends the walk |
| InputBytes.EmptyRequestEndsTheWalk | src/backend_input_collector.cc:65-97 | Concrete inputs: a request without buffers hides the ones behind it without coalescing, and with coalescing when it comes first |
| InputBytes.ChunksAreRuns | src/backend_input_collector.cc:61-137 | Taken apart again, the chunks give every delivered buffer once and in order, and each chunk is the merge of its buffers |
| InputBytes.ChunksAreBuffers | src/backend_input_collector.cc:78-98 | Without coalescing the chunks are the single buffers |
| InputBytes.ChunksAreMaximal | src/backend_input_collector.cc:100-136 | With coalescing no chunk starts where the one before it ends |
| InputBytes.ChunkIntervalsOrdered | src/backend_input_collector.cc:76-117 | The request intervals of the chunks follow one another |
| InputBytes.ChunkIntervalsCover | src/backend_input_collector.cc:76-117 | Every delivered buffer lies in the request interval of some chunk |
| InputBytes.ChunksSize | src/backend_input_collector.cc:240-246 | The chunks hold all delivered bytes, none twice |
| InputBytes.RunBytes | src/backend_input_collector.cc:110-117 | Reading a merged chunk gives the bytes of its buffers one after the other |
| InputBytes.GetInputBufferIfContiguous | src/backend_input_collector.cc:143-198 | Skips the null pointers at the front; from the first other buffer on, its address, the size of everything, and whether each buffer starts where the one before ends; if there are only null pointers, a null buffer with the size of the last |
| InputBytes.ZeroCopyAgrees | src/backend_input_collector.cc:143-198 | With a buffer per request and no null pointers: contiguous if and only if the iterator would deliver a single chunk, the size is the total, and the buffer reads as the whole concatenation |
| GatherViews.DirectCopy | src/backend_input_collector.cc:519-538 | A direct copy into unwritten destination bytes, done, queued or refused, keeps every promise about memory and meets its own |
| GatherViews.StageKeeps | src/backend_input_collector.cc:592-600 | Copying a buffer into staging memory disturbs no promise, whether the copy is done, queued or refused |
| GatherViews.StageFills | src/backend_input_collector.cc:592-600 | The next part of the staging buffer holds, or will hold, its input buffer, unless its responses have failed |
| GatherViews.PartKeeps | src/backend_input_collector.cc:684-689 | A copy into any free part of a staging region, done, queued or refused, keeps every promise |
| GatherViews.WindowCopy | src/backend_input_collector.cc:611-649 | Moving the staging buffer to the tensor at once, on the stream or in Finalize meets the obligations of the whole window, and a refused move fails all its responses |
| GatherViews.LaunchIndependent | src/backend_input_collector.cc:1177-1185 | The copies of a launch conflict neither with the stream nor with each other |
| GatherViews.KernelLaunch | src/backend_input_collector.cc:1177-1310 | A launched kernel meets the obligations of its window |
| GatherViews.WindowsGrow | src/backend_input_collector.cc:468-477 | A chunk that becomes pending extends its window by exactly its bytes; both windows stay apart, before the offset and unwritten |
| GatherViews.WindowsFlushed | src/backend_input_collector.cc:223-238 | Flushing one window leaves the other one and everything behind the offset alone |
| GatherViews.RoomForAll | src/backend_input_collector.cc:441-458 | If the tensor holds all chunks then each one fits at its offset and no response is lost for want of room |
| GatherViews.DeferredStep | src/backend_input_collector.cc:381-385 | Performing, queueing or refusing the next deferred copy keeps every promise, and conflicts with nothing outstanding |
| GatherViews.Synchronized | src/backend_input_collector.cc:362-371 | Waiting for the stream does not change where the gather is heading |
| GatherViews.AllSettled | src/backend_input_collector.cc:381-398 | With nothing deferred any more, the stream settles every obligation |
| Collectors.OffsetTable | src/backend_input_collector.cc:1177-1185 | The kernel offset of every buffer is the sum of the sizes before it |
| Collectors.InputCollector.constructor | include/triton/backend/backend_input_collector.h:58-85 | A new collector has nothing pending and nothing to wait for |
| Collectors.InputCollector.SetInputTensor | src/backend_input_collector.cc:430-539 | Exactly one of: too large for the tensor and its responses fail; pending for staging; pending for the kernel; copied and noted as issued, on the stream exactly if the chunk or the tensor is in GPU memory or copies are asked onto the stream; refused and its responses fail. The tensor is not written before its ready event has been waited for |
| Collectors.InputCollector.CopyDirectly | src/backend_input_collector.cc:575-585 | The fallback copies every pending buffer to its own place in the window |
| Collectors.InputCollector.StageBuffers | src/backend_input_collector.cc:592-600 | The staging buffer holds, or will hold, all pending buffers one behind the other |
| Collectors.InputCollector.CopyOrDefer | src/backend_input_collector.cc:611-649 | The filled staging buffer is copied at once exactly if no copy into it went to the stream, and else deferred |
| Collectors.InputCollector.FailRequests | src/backend_input_collector.cc:628-643 | Every response of the window has had an answer |
| Collectors.InputCollector.FlushPendingPinned | src/backend_input_collector.cc:541-740 | Whether staging memory is found or not, copies succeed or not: the obligations of the window are met, on their way or failed; nothing is pending; staging memory stays owned |
| Collectors.InputCollector.LaunchCopyKernel | src/backend_input_collector.cc:1157-1316 | A successful launch meets the window, a failed one changes nothing; the device goes astray exactly by a launch whose window does not fit the 32-bit ints of the kernel |
| Collectors.InputCollector.FlushPendingCopyKernel | src/backend_input_collector.cc:1108-1155 | The kernel window is met by one launch or, below the threshold or when the launch fails, buffer by buffer; the device does not go astray if the window has too few buffers for a launch or fits the 32-bit ints of the kernel |
| Collectors.InputCollector.FlushGaps | src/backend_input_collector.cc:223-238 | Afterwards each pending window is empty or ends exactly at the offset of the next chunk |
| Collectors.InputCollector.TakeChunk | src/backend_input_collector.cc:240-245 | The next chunk becomes an obligation at the current offset, and the window invariant holds again behind it |
| Collectors.InputCollector.GatherChunks | src/backend_input_collector.cc:216-246 | Every delivered chunk becomes an obligation at the sum of the sizes of the chunks before it |
| Collectors.InputCollector.ProcessTensor | src/backend_input_collector.cc:200-258 | All obligations of the call are recorded, nothing is pending afterwards, the event covers all that is outstanding; a response is lost exactly if a copy that was for it was refused or a chunk it has a part in does not fit; unless copies are refused, there is something to wait for exactly if there was before or a chunk that fits streams; without staging and kernel, what has been issued are the copies of the chunks in order, apart from those whose responses have failed; only bytes of the tensor are given to copies, and none behind the last chunk; no kernel goes astray if all windows with enough buffers for a launch fit |
| Collectors.InputCollector.ProcessInput | src/backend_input_collector.cc:260-357 | Uses the input in place exactly when it is contiguous, not empty and of an allowed type; else gathers it into the given buffer or into a new region of the first allowed type there was room for, with the size of the input; finds no place for an input that needs a new region exactly if all allowed types are full, and then has no effect on the responses; the exact losses, the exact condition for waiting and what has been issued carry over |
| Collectors.InputCollector.AllocateAllowed | src/backend_input_collector.cc:290-333 | The types are tried in their order: after k refusals the region is of allowed type k, and there is none exactly if each of them is full |
| DeviceMemory.GetUsePinnedMemoryType | src/backend_common.cc:71-86 | Staging is for GPU memory when the other side is plain host memory, and for plain host memory when it is GPU memory |
| Collectors.InputCollector.PinnedFor | src/backend_input_collector.cc:205-213 | A memory type is staged for a tensor only if pinned memory may be used, and only the one on the other side: GPU memory and host memory that is not pinned |
| GatherKernel.KernelChunk | src/backend_input_collector.cc:491-511 | Left to the kernel: tensors in GPU memory, for buffers in pinned memory or in the memory of the same GPU |
| Collectors.InputCollector.SynchronizeForDeferred | src/backend_input_collector.cc:362-380 | If copies are deferred then nothing is left on the stream, and the tensor buffer is ready |
| Collectors.InputCollector.FinalizeDeferred | src/backend_input_collector.cc:400-428 | A deferred copy is done, queued, or refused and then all its responses fail |
| Collectors.InputCollector.Finalize | src/backend_input_collector.cc:359-398 | Every obligation of every call is met in the memory that the stream leads to, or its responses have failed; false means nothing is outstanding, and true with an event means the event covers all of it; bytes outside the destinations are unchanged; true is returned exactly if, with nothing deferred, there was something to wait for, and else a deferred copy streams, unless copies are refused |
| Gather.RequestArrives | src/backend_input_collector.cc:216-246 | A request that the iterator gets to and that has not failed has all its bytes at the sum of the sizes of the requests before it |
| Gather.ReachedExactly | src/backend_input_collector.cc:67-137 | Request i is served exactly if it has no buffers, or, with coalescing, the first request has some, or, without, all before it have some |
| Gather.AllArrive | src/backend_input_collector.cc:200-258 | If nothing failed and nothing stands behind the end of the walk, the tensor starts with the concatenation of all buffers of all requests |
| Gather.DeliveredSize | src/backend_input_collector.cc:441-458 | The chunks need exactly as much room as the requests the iterator gets to |
| Gather.GatherBatch | src/backend_input_collector.cc:200-398 | Any number of inputs, any settings, any failures, one Finalize, and a wait only if it asks for one: no kernel goes astray if everything it may be launched for fits its 32-bit ints, and then every response that is left, and whose request the iterator gets to, has every input in place, and no byte has changed outside the tensors, nor inside behind the requests that the iterator gets to; in any case response i is lost exactly if a copy that was for i was refused or a tensor has no room for a chunk with a part of i |
| Gather.UnreachedKeeps | src/backend_input_collector.cc:65-67 | For a request that the iterator does not get to: its response, which does not fail, carries its bytes if and only if the tensor happened to hold them before |
| AsyncStaging.SplitTasks | src/backend_input_collector.cc:660-678 | With the fewest chunks to a task with which W workers can take all n, the tasks are the parts of that many chunks, the last one perhaps shorter, each starting at the sum of the sizes before it; the counter is the smaller of n and W |
| AsyncStaging.Stride | src/backend_input_collector.cc:665-667 | The stride s is the least with n <= s * W: (s - 1) * W < n <= s * W |
| AsyncStaging.TaskCount | src/backend_input_collector.cc:668-678 | With stride s there are t tasks: the last one starts before the end, (t - 1) * s < n, and they cover everything, n <= t * s |
| AsyncStaging.TakeStride | src/backend_input_collector.cc:671-678 | A part ends after stride chunks or at the end of the window, and its end offset is the sum of all sizes up to there |
| AsyncStaging.OneTaskPerChunk | src/backend_input_collector.cc:668-677 | Every chunk belongs to exactly one task |
| AsyncStaging.TaskRanges | src/backend_input_collector.cc:668-677 | The byte ranges of the tasks follow one another from the start of the staging buffer to its end |
| AsyncStaging.CompletesExactlyWhen | src/backend_input_collector.cc:660-668 | There are never more tasks than the counter counts, and exactly as many if and only if n <= W or (W - 1) * s < n, for the s with (s - 1) * W < n <= s * W |
| AsyncStaging.FiveOverFour | src/backend_input_collector.cc:660-668 | Concrete input: five chunks over four workers make three tasks but a counter of four |
| AsyncRuns.IssuedWhenReady | src/backend_input_collector.cc:511-516 | In every run of any number of flushes beside the collector's own thread, whatever the order of their tests, waits and clears: a copy to a tensor is issued only after its ready event has fired |
| AsyncRuns.OnlyStagingBeforeReady | src/backend_input_collector.cc:684-704 | As long as the event has not fired, memory outside staging regions is as it was, but for copies that were outstanding before, and no copy to it has been queued |
| AsyncRuns.StepSound | src/backend_input_collector.cc:659-692 | Every step keeps each task within its own chunks, and each counter at what it started with less the tasks that have finished |
| AsyncRuns.SentExactlyWhen | src/backend_input_collector.cc:659-724 | In every run, once the added tasks of a flush have counted down, it goes on to send its region if and only if no task was refused and n <= W or (W - 1) * s < n, where (s - 1) * W < n <= s * W |
| AsyncRuns.StepFlowing | src/backend_input_collector.cc:650-740 | Opening a flush, copying a chunk in any task, counting down, waiting, sending, direct copies by the collector's thread and copies that the device performs in between: every step keeps the promises of the whole gather |
| AsyncRuns.AllDelivered | src/backend_input_collector.cc:650-740 | In every schedule of any number of flushes, direct copies and progress of the device with its stream, none of whose sends can overtake its own copies: when all is sent and copied, every obligation of the gather is met in the memory the stream leads to or its responses have failed, as in the sequential branch, and no byte outside the destinations has changed |
| AsyncOvertaking.DeliversExactlyWhen | src/backend_input_collector.cc:650-725 | A flush that gets to send its region delivers its whole window from every memory and in every schedule if and only if the tensor is in GPU memory or no copy of any bytes into the staging region goes to the stream |
| AsyncOvertaking.SendOvertakes | src/backend_input_collector.cc:684-702 | For every flush of the other kind, whatever its buffers and workers, a run in which nothing fails but the region is sent while a copy into it is still on the stream, and an obligation is neither met nor its response failed |
| AsyncOvertaking.DeviceBufferOvertaken | src/backend_input_collector.cc:684-702 | A single buffer for a tensor in host memory, with any number of workers: its flush is not orderly if and only if the device may be used and the buffer is in GPU memory or copies are asked onto the stream |
| GatherKernel.KernelIsCopies | src/kernel.cu:32-61 | If every block fits, every schedule of all lanes of all blocks, by words or by bytes, that comes to its end leaves the memory that copying the buffers one after the other gives, with each output byte written exactly once and nothing else written |
| GatherKernel.GathersExactlyWhen | src/kernel.cu:32-61 | For inputs apart from the output: the kernel can come to an end, ends as the sequential copies do, and writes each output byte once and no other, if and only if every block with something to copy has an offset and a size below 2^31 and at most 2^31 - 512 elements |
| GatherKernel.SingleBlock | src/kernel.cu:32-61 | A single buffer is gathered right if and only if it has at most 2^31 - 512 bytes, or at most 2^31 - 4 when size and both addresses are multiples of 4 |
| GatherKernel.NeverDone | src/kernel.cu:50-59 | With more than 2^31 - 512 elements in a block no run comes to an end: the lane of the last element wraps around instead of stopping |
| GatherKernel.OversizeLosesBytes | src/kernel.cu:41-59 | A buffer of 2^31 bytes or more: no run that comes to its end writes each output byte once |
| GatherKernel.FarBlockMisses | src/kernel.cu:42-44 | A block at an offset of 2^31 or more: no run that comes to its end writes each output byte once and nothing else |
| GatherKernel.FarBlock | src/kernel.cu:42-44 | Concrete input: of 1 GiB, 1 GiB and 4 bytes the last buffer is written 2^31 bytes before the output and its place never |
| GatherKernel.HugeBlock | src/kernel.cu:41-56 | Concrete input: of a single buffer of 2^31 bytes nothing is copied |
| GatherKernel.WrappingLane | src/kernel.cu:55-59 | Concrete input: with a single buffer of 2^31 - 1 bytes no run ends, and there is one that writes before the output |
| GatherKernel.StepWrites | src/kernel.cu:50-59 | Every single element copy keeps, for each location, how often each block has written it in step with the element counters of the lanes |
| GatherKernel.StepMem | src/kernel.cu:50-59 | Every single element copy keeps every output byte either as it was or as its source, whichever the lanes' counters say, and nothing else changed |
| GatherKernel.AllRunsGive | src/kernel.cu:67-76 | A kernel whose blocks fit can come to an end, and however it does, memory is then as after the copies: what a launch is taken to queue |
| GatherKernel.KernelArguments | src/backend_input_collector.cc:1177-1185 | With the table of running sizes the kernel is asked for exactly the copies of the window |
| GatherKernel.KernelReadyStep | src/backend_input_collector.cc:493-505 | The pending window is the one that the chunks so far lead to, and if every such window with enough buffers for a launch fits, so does every window that is ever launched |
| GatherKernel.SmallTensorsFit | src/kernel.cu:41-59 | A tensor of at most 2^31 - 512 bytes is always safe |
| GatherKernel.ElementBytes | src/kernel.cu:44-60 | An element covers exactly the bytes that divide to its index, for words and for bytes |
| GatherKernel.DirectCopies | src/backend_input_collector.cc:1133-1145 | The direct-copy fallback gives every output byte its source byte and changes nothing else |
| Arithmetic.ToInt | src/kernel.cu:41-42 | Conversion to a 32-bit int wraps around and keeps values in range |
| Responders.RowsSize | src/backend_output_responder.cc:108-112 | The slices of the first n responses take exactly the bytes of the rows of the first n requests |
| Responders.CopiesSize | src/backend_output_responder.cc:84-110 | Without batching the slices of the first n responses take n times the bytes of the whole output shape |
| Responders.TensorBytes | src/backend_output_responder.cc:65-110 | The tensor is taken to have the rows of its batch, or of all requests if the batch is open, or without batching one whole shape for each request |
| Responders.OutputResponder.ChecksBytes | src/backend_output_responder.cc:88-99 | The batch-size check lets the first n responses pass if and only if the bytes of their slices are there |
| Responders.SliceFits | src/backend_output_responder.cc:91-112 | A response that passes the batch-size check has a slice within the tensor |
| Responders.OverrideShape | src/backend_output_responder.cc:542-555 | Every unknown dimension of the output is taken from the same dimension of the input |
| Responders.OutputResponder.constructor | include/triton/backend/backend_output_responder.h:54-69 | A new responder has nothing pending and nothing to wait for |
| Responders.OutputResponder.CopyOrFail | src/backend_output_responder.cc:409-417 | A copy for one response is done, queued, or refused and the response fails; it is late, by what has been issued, exactly if it is issued when the response has been sent |
| Responders.OutputResponder.CopyDirectly | src/backend_output_responder.cc:402-422 | Without staging memory every recorded output is copied from its slice of the tensor |
| Responders.OutputResponder.StageSlice | src/backend_output_responder.cc:425-448 | The staging buffer holds, or will hold, the slice all recorded outputs need, or all their responses have failed |
| Responders.OutputResponder.HandOut | src/backend_output_responder.cc:460-479 | Every recorded output is served from its own part of the staging buffer; the copies are tried in order, and what has been issued are exactly those that were not refused; also after the slice was lost and its responses were sent, and then these are exactly the late ones |
| Responders.OutputResponder.FlushThroughStaging | src/backend_output_responder.cc:425-485 | The slice is staged and then handed out or put off; with a tensor in GPU memory and buffers in host memory, copies have been issued to all the recorded responses after they were sent if the slice was lost, which shows by the first of them having failed, and else to none |
| Responders.OutputResponder.PutOffSlice | src/backend_output_responder.cc:480-484 | A slice that is still on its way to the staging buffer is handed out in Finalize; its outputs count as served |
| Responders.OutputResponder.FlushPendingPinned | src/backend_output_responder.cc:376-497 | Whatever route is taken, every recorded output is served, on its way or failed, nothing stays recorded, and staging memory stays owned |
| Responders.OutputResponder.SetFixedSizeBuffer | src/backend_output_responder.cc:305-373 | The response gets a new buffer that will receive exactly its slice, or it fails; the buffer is recorded behind the others if and only if pinned memory may be used and one of buffer and tensor is in GPU memory and the other in host memory that is not pinned, and otherwise its copy is issued at once or refused |
| Responders.OutputResponder.ScatterOutput | src/backend_output_responder.cc:115-141 | A response is served if and only if it is left and its request names the output; a refused call into the server fails it |
| Responders.OutputResponder.ScatterState | src/backend_output_responder.cc:223-236 | A state is created for every response that is left, and served |
| Responders.OutputResponder.CheckBatch | src/backend_output_responder.cc:91-107 | A response whose rows exceed the batch of the model fails, and only then |
| Responders.OutputResponder.FlushGap | src/backend_output_responder.cc:74-82 | Afterwards the recorded slice is empty or ends exactly at the next one |
| Responders.OutputResponder.ProcessTensor | src/backend_output_responder.cc:49-153 | Every response that is left and wants the output has a buffer of its own that is to receive the slice at the sum of all earlier sizes, even when earlier responses failed or did not ask; a response is lost exactly if a copy or call for it was refused or the batch of the model has too few rows to get to it; the caller's shape is left as it was, but with batching for the batch size of the last request in front; the exact condition for waiting; without staging, what has been issued are the copies of the slices in order, apart from those whose responses have failed |
| Responders.OutputResponder.SameVectorAgain | src/backend_output_responder.cc:88-108 | A second call with the same shape vector finds the batch too small for someone if and only if a request other than the last has rows |
| Responders.OutputResponder.ProcessStateTensor | src/backend_output_responder.cc:155-250 | The same for a state tensor, for every response that is left; the returned states are those of the requests in order; the shape is overwritten likewise, and not without batching |
| Responders.OutputResponder.ProcessBatchOutput | src/backend_output_responder.cc:501-605 | The same for a batch output whose unknown dimensions come from an input |
| Responders.OutputResponder.Finalize | src/backend_output_responder.cc:252-302 | Every slice is in its buffer in the memory that the stream leads to, or its response has failed; false means nothing is outstanding; true is returned exactly if, with nothing deferred, there was something to wait for, and else a deferred copy streams, unless copies are refused; the deferred copies are all tried in order, and what has been issued are exactly those that were not refused; late are exactly those of them whose response was not left before or had an earlier one refused, and exactly the responses with a refused one are lost; the responder is ready for further tensors |
| Scatter.SlicesArrive | src/backend_output_responder.cc:49-302 | Settled obligations give every response that is left, and wants its slice, exactly the bytes the tensor had there |
| Scatter.RowsForAll | src/backend_output_responder.cc:88-99 | When the batch of the model has as many rows as all requests together, nobody is lost for want of rows |
| Scatter.ScatterBatch | src/backend_output_responder.cc:49-605 | Any number of outputs, states and batch outputs, one Finalize, and a wait only if it asks for one: every response that is left holds all its slices in buffers that were handed out for it, each in a region of its own; nothing but newly allocated memory has changed; response i is lost exactly if a copy or call for i was refused or a batch has too few rows to get to it; by what has been issued and when responses failed, a copy was issued to a response that had been sent exactly if one was issued for a lost slice or Finalize issued one when the response was no longer left; never without staging |
| ScatterViews.SliceStaged | src/backend_output_responder.cc:425-448 | Staging a slice in one copy, done, queued or refused, disturbs no promise |
| ScatterViews.OutputStep | src/backend_output_responder.cc:460-479 | The first waiting output is served from the front of the staged slice, and the rest of the slice is left for the ones behind it |
| ScatterViews.WholeSlicePutOff | src/backend_output_responder.cc:480-484 | Putting off all copies of a staged slice meets the obligations of all its outputs |
| Execute.ModelState.TensorShape | examples/backends/recommended/src/recommended.cc:219-245 | The shape is built by the first call and every call returns the same one: the shape of the model, with an unknown batch size in front if the model batches; filled in with n it has the bytes of n times the shape of the model |
| Execute.SizedWell | examples/backends/recommended/src/recommended.cc:219-245 | Inputs with the bytes of as many shapes of the model as their own batch size says, or of one without batching, have the sizes at which the responder cuts |
| Execute.CreateResponses | examples/backends/recommended/src/recommended.cc:510-517 | One response per request, none sent; it fails only when the server refuses one, and then nothing has been sent |
| Execute.OffsetsAgree | examples/backends/recommended/src/recommended.cc:576-655 | When every input has the size its shape says, the slices of the scatter start where the requests of the gather do |
| Execute.InPlaceBatch | examples/backends/recommended/src/recommended.cc:576-582 | An input used in place has the bytes of every request where a gather would have put them |
| Execute.StreamsFromDevice | src/backend_input_collector.cc:519-526 | Gathering into host memory takes the stream if and only if some delivered buffer lies in GPU memory |
| Execute.WaitsExactly | examples/backends/recommended/src/recommended.cc:576-595 | The collector asks for a wait if and only if the library has GPU support, the input cannot be used in place and a delivered buffer lies in GPU memory |
| Execute.DeviceBatchNeedsWait | examples/backends/recommended/src/recommended.cc:584-595 | Inputs that need the wait: any non-empty batch that lies in GPU memory, as a single request with a single buffer |
| Schedules.ChainDelivers | src/backend_common.cc:690-706 | For two copies of what the host has issued, the second from where the first goes to: in every schedule of host and device the bytes get to the end of the chain, unless the device performs the first and the host the second |
| Schedules.HostOvertakes | src/backend_common.cc:690-706 | In that case there is a schedule in which the second copies, for good, what was there before the first |
| Sending.CarriesExactlyWhen | examples/backends/recommended/src/recommended.cc:584-668 | From every memory and in every schedule, once the stream has run dry, a response that has not failed holds its own request's bytes, if and only if it has none; or its input is used in place; or the iterator gets to it and there is no GPU support, or no byte of it lies in GPU memory, or its buffer lies there too |
| Sending.InTimeExactlyWhen | examples/backends/recommended/src/recommended.cc:584-679 | And it holds them when it is sent if and only if it has none, or its input is used in place or got to without any byte of it in GPU memory and its buffer does not lie there either (each only where there is GPU support) |
| Sending.StaleRun | examples/backends/recommended/src/recommended.cc:584-668 | The failing run: the host copies the slice of a response while the device has yet to bring a byte of it, and the response keeps what the batched tensor held before |
| Sending.UnreachedRun | examples/backends/recommended/src/recommended.cc:576-668 | A run that fails for a request that the iterator does not get to |
| Sending.UnsentRun | examples/backends/recommended/src/recommended.cc:655-679 | A run in which a response with a buffer in GPU memory is sent before its bytes are there |
| Execute.Collect | examples/backends/recommended/src/recommended.cc:560-595 | The batched tensor holds, once the stream has run dry, the bytes of every request that is left, at the sum of the earlier sizes; a wait is asked for exactly if the input needs one, unless copies are refused; what has been issued is one copy per delivered buffer, apart from those whose responses have failed, by the stream exactly if the buffer lies in GPU memory, and nothing if the input is used in place; the library itself never waits; a new tensor is in pinned memory, or in other host memory if there was no room; no place is found exactly if the input cannot be used in place and both are full, and then every response has failed |
| Execute.Respond | examples/backends/recommended/src/recommended.cc:627-668 | Every response that is left and was asked for the output has its slice of the batched tensor, once the stream has run dry, in a buffer of its own that was handed out for it; nobody else has one; a wait is asked for exactly if a buffer handed out lies in GPU memory, unless copies are refused; what has been issued is one copy per slice, apart from those whose responses have failed, by the stream exactly if the buffer lies in GPU memory |
| Execute.ModelInstanceExecute | examples/backends/recommended/src/recommended.cc:475-746 | Either a call is refused early, and no response is sent and no request released, or exactly one response and one release per request; a response fails exactly if something was refused for it, or if no place for the input was found, which is the case exactly when it cannot be used in place and all host memory types are full, and then all fail; nothing waits for the device, and each success response that was asked for the output carries, in a buffer handed out for it, exactly the input bytes of its own request, from every memory and in every schedule of what has been issued, if and only if the shipment says so, and likewise carries them when it is sent |
| Shapes.GetElementCount | src/backend_common.cc:161-180 | -1 if a dimension is -1; else 0 for a shape without dimensions; else the product of the dimensions |
| Shapes.ProductConcat | src/backend_common.cc:161-180 | The product of dimensions one behind the other is the product of the two products |
| Shapes.BatchSize | src/backend_common.cc:188-203 | A batch of n rows takes n times the bytes of one row |
| Shapes.RowBytes | src/backend_common.cc:188-203 | A shape with any batch size in front has that many times the elements of the rest, each of the size of the type |
| Shapes.GetByteSize | src/backend_common.cc:188-203 | Unknown when the size of an element or a dimension is; never negative for known ones, and 0 without dimensions |
| BatchInputs.BatchInputShape | src/backend_input_collector.cc:742-818 | The shape of every kind of batch input, in terms of the inputs of the requests |
| BatchInputs.LargestBounds | src/backend_input_collector.cc:757-772 | The largest element count: no input has more, and one has as many unless it is 0 |
| BatchInputs.OneRequest | src/backend_input_collector.cc:774-811 | For one request: its element count, its batch size, and its batch size times its other dimensions |
| BatchInputs.MoreRequests | src/backend_input_collector.cc:774-811 | And for more requests these numbers add up |
| BatchInputs.SetElementCount | src/backend_input_collector.cc:995-1027 | Each cell is the element count of its request and the rest is 0; fails if and only if there is not a cell for every request |
| BatchInputs.SetAccumulatedElementCount | src/backend_input_collector.cc:1029-1063 | Each cell is the running total and the rest repeats the last one; fails if and only if there is not a cell for every request |
| BatchInputs.WriteItems | src/backend_input_collector.cc:1091-1102 | The dimensions of an item are written once per item of the batch, and once if there is none; nothing else is touched |
| BatchInputs.SetBatchItemShape | src/backend_input_collector.cc:1065-1106 | The buffer starts with the item shapes of all requests, each once per item; writes behind its end exactly if an empty batch's item does not fit, and else fails if and only if the items do not |
| BatchInputs.ItemCellAt | src/backend_input_collector.cc:1091-1103 | Item k of request r has its d-th dimension behind those of all earlier items |
| BatchInputs.ProcessBatchInput | src/backend_input_collector.cc:920-980 | The contents of the index tensor for every kind, exactly when the buffer is too small, and exactly when the code writes behind its end |
| BatchInputs.SizedBufferSuffices | src/backend_input_collector.cc:742-844 | A buffer has room for the data of a kind if and only if it is no smaller than four bytes for each element of the kind's own shape (the kind without data needs none), and item shapes fill that exactly |
| BatchInputs.EmptyLastOverruns | src/backend_input_collector.cc:1091-1102 | When the last batch is empty, a buffer of just the size of the items is overrun |
| BatchInputs.EntriesDelimit | src/backend_input_collector.cc:944-958 | With a leading zero, the entries delimit the requests in the gathered tensor |
| BatchInputs.AccumulatedOffset | src/backend_input_collector.cc:1052-1054 | A request starts in the gathered tensor where the element counts before it say |
| StringBuffer.ValidateStringBuffer | src/backend_common.cc:1382-1440 | The strings found stand at the front of the buffer, each right behind its four-byte length and that behind the string before, at most the expected number of them, and the status says what stopped the search |
| StringBuffer.AcceptsExactly | src/backend_common.cc:1382-1440 | Success if and only if the buffer is exactly the expected number of length-prefixed strings followed by fewer than 4 bytes; the strings found are then those, and on failure a prefix of what is there |
| StringBuffer.StatusExactly | src/backend_common.cc:1391-1438 | Each failure exactly: too many if there are more strings, or as many and four more bytes; incomplete if there are fewer and four more bytes; too few if there are fewer and no such rest |
| StringBuffer.ParseEncoded | src/backend_common.cc:1391-1428 | Parsing undoes encoding |
| StringBuffer.ParseShort | src/backend_common.cc:1391-1428 | Byte by byte: a string of n < 256 bytes behind the bytes n, 0, 0, 0 is found, at position 4 |
| StringBuffer.SplitUnique | src/backend_common.cc:1391-1428 | There is only one way to split a buffer into whole strings and a remainder |
| StringBuffer.PrefixOfLength | src/backend_common.cc:1407-1409 | The four prefix bytes and the length determine each other |
| StringBuffer.ByteWeight | src/backend_common.cc:1407-1409 | The lowest byte of the length comes first: one more in byte k of the prefix is 256 to the k more in the length |
| MemoryTracker.DeviceMemoryTracker.TrackActivity | src/device_memory_tracker.cc:235-307 | A memory record consumes the binding of its correlation and charges the usage that was bound, and no other; a known correlation record binds; nothing else changes anything |
| MemoryTracker.BindingsFollow | src/device_memory_tracker.cc:242-299 | The bindings are those of the known correlation records that no memory record has consumed |
| MemoryTracker.BindingConsumedOnce | src/device_memory_tracker.cc:242-249 | No two memory records consume the same binding |
| MemoryTracker.CountersAreLedger | src/device_memory_tracker.cc:256-288 | A usage stays valid if and only if every record that counts for it is about a device it knows; each counter then is the initial value plus the sum of the bytes allocated minus the sum of the bytes released |
| MemoryTracker.InvalidIsFrozen | src/device_memory_tracker.cc:256-261 | An invalid usage never changes again |
| MemoryTracker.MemoryUsage.UpdateMemoryTypeUsage | src/device_memory_tracker.cc:310-325 | An allocation makes the counter of a known device larger by its bytes and a release smaller; no other counter changes; an unknown device is reported |
| MemoryTracker.MemoryUsage.Charge | src/device_memory_tracker.cc:260-288 | A record changes only the counters of its own kind of memory; the usage stays valid exactly if that kind is known and has the device |
| MemoryTracker.MemoryUsage.Merge | include/triton/backend/device_memory_tracker.h:147-165 | Adds counter by counter, also to itself |
| MemoryTracker.MergedLedger | include/triton/backend/device_memory_tracker.h:147-165 | Two usages that started from zero, merged, hold what counted for either of them if and only if both are valid; but the result passes for valid if the left one is |
| MemoryTracker.MergeHidesInvalid | include/triton/backend/device_memory_tracker.h:147-165 | Concrete input: an allocation on an unknown device, merged into an empty usage, gives a valid usage that knows nothing of it |
| MemoryTracker.MemoryUsage.SerializeToBufferAttributes | include/triton/backend/device_memory_tracker.h:167-219 | The report stands at the front of a list that only grows; refused for an invalid usage |
| MemoryTracker.ReportHolds | include/triton/backend/device_memory_tracker.h:167-219 | What is in the report: exactly the counters that are not zero, those of system, pinned and device memory each under their own kind |
| MemoryTracker.ReportInOrder | include/triton/backend/device_memory_tracker.h:167-219 | In which order: system memory, pinned memory, device memory, each by device, and nothing twice |
| MemoryTracker.NonZeroHolds | include/triton/backend/device_memory_tracker.h:184-188 | A device is reported if and only if it holds memory |

## Left out

- A second Finalize of a collector: its deferred entries and task count are not reset, so the second call would repeat copies. The responder's can be repeated and is.
- The choice between the sequential and the asynchronous branch: the collector is modelled with the sequential one, and the asynchronous one is a state machine of its own over the same obligations.
- A kernel launch by the collector's thread beside asynchronous flushes is not a step of its own in the asynchronous state machine: it queues what so many direct copies to the stream in a row would.
- The paths of the recommended backend on which SupportsFirstDimBatching or TensorShape fails: all responses fail and the function goes on all the same; the model takes both to succeed.
- Atomicity inside the asynchronous branch: a copy of one chunk, with the failure of its responses, is one step, and so is opening a flush; the responses of tasks that the work queue refuses fail in that step.
- Failed lookups inside the iterator: the code continues with the handle of the previous request, so lookups are taken to succeed.
- The tables of pointers, sizes and offsets that LaunchCopyKernel copies to the device: they are passed to the kernel by value, and finding room for them succeeds or fails freely.
- ProcessBatchInput's choice of buffer, its copy of the finished index tensor to the GPU and the event after it: only the index data is modelled, for 32-bit integers.
- BatchInputs.ProcessBatchInput: nothing is said about the contents when the code writes behind the end of the buffer; the inputs of the item kinds must have a batch dimension, because the code reads it unconditionally.
- BatchInputs.EntriesDelimit: for totals below 2^31 only, because the cells hold 32-bit integers.
- ReadInputTensor: a loop of CopyBuffer calls without any of the staging.
- Wildcard dimensions that no request fills in, and element types of variable size: their byte size is -1, which the callers take for a huge size.
- Responders.OutputResponder.ProcessTensor: the tensor must have the size its shape says (or, with an unknown batch size, that of all slices), which the code relies on without checking.
- Execute.ModelInstanceExecute: inputs must have the size their shape says, which the server checks before it calls a backend; the device performs a copy in one step, and the host one as well.
- What memory holds, and whether a wait for the stream ever ends, once a kernel was launched on blocks that do not fit its 32-bit ints: that is said of the kernel alone.
- Overflow of 64-bit counters, sizes and shape products.
- Failures of the attribute calls in SerializeToBufferAttributes.
- The profiler subscription, its buffers and the lock around the tracker's map.
- Logging, statistics, timestamps and the text of error messages.
- Model and instance construction, configuration parsing, file system helpers, sequence control and the string conversion helpers.
- The BLS backend and the batching strategies.

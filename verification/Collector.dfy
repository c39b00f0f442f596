/** The input collector: gathers a named input of every request of a batch into
    one destination buffer. */
module Collectors {
  import opened DeviceMemory
  import opened Devices
  import opened Responses
  import opened Delivery
  import opened InputIteration
  import opened InputBytes
  import opened GatherViews
  import opened GatherKernel

  /** What became of a chunk. */
  datatype Route = TooLarge | ToPinned | ToKernel | Copied(ok: bool)

  /** Where an input can be found: nowhere, in the requests' own buffer, or in a
      buffer it has been gathered into. */
  datatype Placement = Unplaced | InPlace(t: Tensor) | Gathered(t: Tensor)

  /** The kernel's offset table: each buffer starts behind the ones before it. */
  method OffsetTable(bufs: seq<Chunk>) returns (offsets: seq<nat>)
    ensures |offsets| == |bufs| && forall j | 0 <= j < |bufs| :: offsets[j] == Sizes(bufs[..j])
  {
    offsets := [];
    var byteSizeOffset, i := 0, 0;
    while i < |bufs|
      invariant i == |offsets| <= |bufs| && byteSizeOffset == Sizes(bufs[..i])
      invariant forall j | 0 <= j < i :: offsets[j] == Sizes(bufs[..j])
    {
      SizesStep(bufs, i);
      offsets := offsets + [byteSizeOffset];
      byteSizeOffset := byteSizeOffset + bufs[i].size;
      i := i + 1;
    }
  }

  /** Copying the chunk to the tensor takes the device. */
  predicate NeedsDevice(c: Chunk, t: Tensor) {
    c.ptr.space.Type() == Gpu || t.ptr.space.Type() == Gpu
  }

  ghost predicate AllNeedDevice(bufs: seq<Chunk>, t: Tensor) {
    forall b | b in bufs :: NeedsDevice(b, t)
  }

  /** How far a call has come: the chunks done, all chunks there are, whether there was
      something to wait for when it began, and whether no kernel has gone astray before or
      can do so now. */
  datatype Trip = Trip(done: seq<Chunk>, all: seq<Chunk>, before: bool, straight: bool)

  /** The new region that a tensor of the given type would get. */
  function OwnedTensor(memoryType: (MemoryType, int), serial: nat, size: nat): Tensor {
    Tensor(Loc(Owned(memoryType.0, memoryType.1, serial, Backend), 0), size)
  }

  class InputCollector {
    const dev: Device
    const resp: ResponseSet
    const count: nat
    const pinnedEnabled: bool
    const useEvent: bool
    const kernelThreshold: nat
    const copyOnStream: bool
    const coalesce: bool

    var needSync: bool
    /** Whether the ready event of the caller's buffer must still be waited for. */
    var readyEvent: bool
    var pinnedSize: nat
    var pinnedOffset: nat
    var pinnedBuffers: seq<Chunk>
    var kernelSize: nat
    var kernelOffset: nat
    var kernelCount: nat
    var kernelBuffers: seq<Chunk>
    var deferred: seq<DeferredPinned>
    /** The staging regions kept alive until the collector is destroyed. */
    var inUse: set<nat>

    ghost const orig: Memory
    ghost var r: Regions
    ghost var obls: seq<Obligation>

    constructor (dev: Device, resp: ResponseSet, pinnedEnabled: bool, useEvent: bool, readyEvent: bool,
                 kernelThreshold: nat, copyOnStream: bool, coalesce: bool, ghost inputs: iset<Loc>)
      requires resp.Valid() && dev.stream == []
      requires !(readyEvent && dev.gpuEnabled) ==> dev.bufferReady
      requires forall l | l in inputs :: !l.space.Staging?
      ensures Idle() && obls == [] && r == Regions(inputs, iset{}, iset{}) && orig == dev.mem
      ensures this.dev == dev && this.resp == resp && count == |resp.live| && this.coalesce == coalesce
      ensures this.useEvent == useEvent
      ensures this.pinnedEnabled == pinnedEnabled && this.copyOnStream == copyOnStream
      ensures this.kernelThreshold == kernelThreshold && !needSync && deferred == []
    {
      this.dev, this.resp, this.count := dev, resp, |resp.live|;
      this.pinnedEnabled, this.useEvent, this.readyEvent := pinnedEnabled, useEvent, readyEvent && dev.gpuEnabled;
      this.kernelThreshold, this.copyOnStream, this.coalesce := kernelThreshold, copyOnStream, coalesce;
      needSync := false;
      pinnedSize, pinnedOffset, pinnedBuffers := 0, 0, [];
      kernelSize, kernelOffset, kernelCount, kernelBuffers := 0, 0, 0, [];
      deferred, inUse := [], {};
      orig, obls := dev.mem, [];
      r := Regions(inputs, iset{}, iset{});
    }

    /** What holds between two calls: nothing is pending, whatever is outstanding
        will be waited for, and the event covers all of it. */
    ghost predicate Idle()
      reads this, dev, resp
    {
      && Base(inUse) && Pending([])
      && pinnedSize == 0 == pinnedOffset && pinnedBuffers == []
      && kernelSize == 0 == kernelOffset && kernelBuffers == [] && kernelCount == 0
      && SyncTracked()
      && (useEvent && needSync ==> dev.marked == |dev.stream|)
    }

    ghost predicate SyncTracked()
      reads this`needSync, this`deferred, dev`stream
    {
      && (dev.stream != [] || deferred != [] ==> needSync)
      && (needSync ==> dev.gpuEnabled)
    }

    ghost function Now(): View
      reads this`deferred, this`r, dev`mem, dev`stream, resp`live
    {
      View(dev.mem, dev.stream, deferred, resp.live, r)
    }

    ghost predicate Base(owned: set<nat>)
      reads this`deferred, this`r, this`obls, this`readyEvent, dev`mem, dev`stream, dev`nextSerial, dev`bufferReady, resp
    {
      Now().Ok(orig, obls, owned) && Healthy(owned)
    }

    ghost predicate Healthy(owned: set<nat>)
      reads this`deferred, this`readyEvent, dev`stream, dev`nextSerial, dev`bufferReady, resp
    {
      && resp.Valid() && |resp.live| == count
      && (forall s | s in owned :: s < dev.nextSerial)
      && (!readyEvent ==> dev.bufferReady)
      && (!dev.gpuEnabled ==> dev.stream == [] && deferred == [])
    }

    ghost predicate Pending(obs: seq<Obligation>)
      reads this`deferred, this`r, this`obls, dev`mem, dev`stream, resp`live
    {
      Now().Pending(orig, obls, obs)
    }

    /** Only which obligations are pending matters, not their order. */
    lemma {:induction false} Reorder(a: seq<Obligation>, b: seq<Obligation>)
      requires Pending(a + b)
      ensures Pending(b + a)
    {}

    /** The memory type of the chunks that go through staging memory to the tensor;
        pinned stands for none. */
    function PinnedFor(t: Tensor): (staged: MemoryType)
      ensures staged != CpuPinned <==> pinnedEnabled && t.ptr.space.Type() != CpuPinned
      ensures staged != CpuPinned ==> Crosses(staged, t.ptr.space.Type())
    {
      if pinnedEnabled then GetUsePinnedMemoryType(t.ptr.space.Type()) else CpuPinned
    }

    predicate UsesPinned(input: Chunk, usePinned: MemoryType) {
      usePinned != CpuPinned && input.ptr.space.Type() == usePinned
    }

    predicate UsesKernel(input: Chunk, t: Tensor, useKernel: bool) {
      useKernel && KernelChunk(input, t)
    }

    // -------------------------------------------------------------------------
    // When a call leaves something to wait for
    // -------------------------------------------------------------------------

    /** A copy of the chunk to the tensor, unless it is refused, goes to the stream. */
    predicate Streams(c: Chunk, t: Tensor) {
      dev.gpuEnabled && (copyOnStream || NeedsDevice(c, t))
    }

    /** A chunk that there is room for streams. */
    ghost predicate SomeStreams(cs: seq<Chunk>, t: Tensor) {
      exists j | 0 <= j < |cs| :: FitsAt(cs, t, j) && Streams(cs[j], t)
    }

    /** The copy of a chunk to an offset of the tensor, by the host or through the stream. */
    function IssueOf(c: Chunk, t: Tensor, offset: nat): Issue {
      if Streams(c, t) then ByStream(ToCopy(c, t, offset)) else ByHost(ToCopy(c, t, offset))
    }

    /** One chunk has been dealt with: its copy is issued, or its responses have failed. */
    ghost predicate OneIssued(ops0: seq<Issue>, ops1: seq<Issue>, c: Chunk, t: Tensor, offset: nat, live: seq<bool>) {
      || (ops1 == ops0 + [IssueOf(c, t, offset)] && offset + c.size <= t.size)
      || (ops1 == ops0 && (offset + c.size <= t.size ==> AllNull(live, c.first, c.last)))
    }

    /** Since ops0 the copies of the chunks have been issued, apart from those whose
        responses have failed, and no others. */
    ghost predicate AllIssued(ops0: seq<Issue>, ops1: seq<Issue>, cs: seq<Chunk>, t: Tensor, live: seq<bool>) {
      && ops0 <= ops1
      && (forall op | op in ops1[|ops0|..] :: IsIssue(op, cs, t))
      && forall j | 0 <= j < |cs| && FitsAt(cs, t, j) ::
           IssueOf(cs[j], t, Sizes(cs[..j])) in ops1[|ops0|..] || AllNull(live, cs[j].first, cs[j].last)
    }

    ghost predicate IsIssue(op: Issue, cs: seq<Chunk>, t: Tensor) {
      exists j | 0 <= j < |cs| :: FitsAt(cs, t, j) && op == IssueOf(cs[j], t, Sizes(cs[..j]))
    }

    lemma {:induction false} NoneIssued(ops: seq<Issue>, t: Tensor, live: seq<bool>)
      ensures AllIssued(ops, ops, [], t, live)
    {}

    lemma {:induction false} NextIssued(ops0: seq<Issue>, ops1: seq<Issue>, ops2: seq<Issue>, cs: seq<Chunk>, c: Chunk,
                                        t: Tensor, live0: seq<bool>, live1: seq<bool>)
      requires AllIssued(ops0, ops1, cs, t, live0) && OnlyNulled(live0, live1)
      requires OneIssued(ops1, ops2, c, t, Sizes(cs), live1)
      ensures AllIssued(ops0, ops2, cs + [c], t, live1)
    {
      hide IssueOf;
      var cs', new1, new2 := cs + [c], ops1[|ops0|..], ops2[|ops0|..];
      assert new2 == new1 + ops2[|ops1|..];
      assert cs'[..|cs|] == cs;
      forall j | 0 <= j <= |cs|
        ensures FitsAt(cs', t, j) == if j < |cs| then FitsAt(cs, t, j) else Sizes(cs) + c.size <= t.size
        ensures cs'[..j] == cs[..j]
      {
        FitsAtStep(cs, c, t, j);
      }
      hide FitsAt, Sizes;
      forall op | op in new2
        ensures IsIssue(op, cs', t)
      {
        if op in new1 {
          assert IsIssue(op, cs, t);
          var j :| 0 <= j < |cs| && FitsAt(cs, t, j) && op == IssueOf(cs[j], t, Sizes(cs[..j]));
          assert FitsAt(cs', t, j) && op == IssueOf(cs'[j], t, Sizes(cs'[..j]));
        } else {
          assert FitsAt(cs', t, |cs|) && op == IssueOf(cs'[|cs|], t, Sizes(cs'[..|cs|]));
        }
      }
    }

    lemma {:induction false} StillIssued(ops0: seq<Issue>, ops1: seq<Issue>, cs: seq<Chunk>, t: Tensor, live0: seq<bool>,
                                         live1: seq<bool>)
      requires AllIssued(ops0, ops1, cs, t, live0) && OnlyNulled(live0, live1)
      ensures AllIssued(ops0, ops1, cs, t, live1)
    {
      hide IssueOf, FitsAt, Sizes;
    }

    lemma {:induction false} SomeStreamsStep(cs: seq<Chunk>, c: Chunk, t: Tensor)
      ensures SomeStreams(cs + [c], t) <==> SomeStreams(cs, t) || (Sizes(cs) + c.size <= t.size && Streams(c, t))
    {
      forall j: nat | j <= |cs|
        ensures FitsAt(cs + [c], t, j) == if j < |cs| then FitsAt(cs, t, j) else Sizes(cs) + c.size <= t.size
      {
        FitsAtStep(cs, c, t, j);
      }
      hide FitsAt, Sizes;
      var cs' := cs + [c];
      assert cs'[|cs|] == c && forall j | 0 <= j < |cs| :: cs'[j] == cs[j];
      if SomeStreams(cs, t) {
        var j :| 0 <= j < |cs| && FitsAt(cs, t, j) && Streams(cs[j], t);
        assert FitsAt(cs', t, j) && Streams(cs'[j], t);
      }
      if SomeStreams(cs', t) {
        var j :| 0 <= j < |cs'| && FitsAt(cs', t, j) && Streams(cs'[j], t);
        assert j < |cs| ==> FitsAt(cs, t, j) && Streams(cs[j], t);
      }
    }

    /** Something is pending. */
    predicate Waiting()
      reads this`pinnedBuffers, this`kernelBuffers
    {
      pinnedBuffers != [] || kernelBuffers != []
    }

    /** needSync says whether there was something to wait for, or a chunk done since
        streams; unless a copy was refused, or the chunks that stream are pending. */
    ghost predicate SyncKnown(done: seq<Chunk>, t: Tensor, before: bool)
      reads this`needSync, this`pinnedBuffers, this`kernelBuffers, dev`refusals
    {
      && (before ==> needSync) && (needSync ==> before || SomeStreams(done, t))
      && (!dev.refusals.any && SomeStreams(done, t) ==> needSync || Waiting())
      && (dev.gpuEnabled && Waiting() ==> SomeStreams(done, t))
      && AllNeedDevice(pinnedBuffers, t) && AllNeedDevice(kernelBuffers, t)
      && (!pinnedEnabled ==> pinnedBuffers == []) && (kernelThreshold == 0 ==> kernelBuffers == [])
    }

    /** What is known about waiting and about the kernel window after the chunks done. */
    ghost predicate OnTrack(w: Trip, t: Tensor)
      reads this`needSync, this`pinnedBuffers, this`kernelBuffers, this`kernelOffset, this`kernelSize, dev`refusals
      reads dev`astray
    {
      && SyncKnown(w.done, t, w.before) && KernelReady(KernelWin([]), w.done, t, kernelThreshold, w.straight)
      && (w.straight ==> !dev.astray)
    }

    /** Puts one chunk at an offset of the tensor: records it as pending, or copies it. */
    method SetInputTensor(input: Chunk, t: Tensor, offset: nat, usePinned: MemoryType, useKernel: bool, wait: bool)
      returns (cudaCopy: bool, ghost route: Route)
      requires resp.Valid() && Named(input, |resp.live|)
      requires offset + input.size <= t.size ==> IndependentOfAll(ToCopy(input, t, offset), dev.stream)
      requires wait || t.ptr.space.Staging?
      requires !readyEvent ==> dev.bufferReady
      modifies dev`mem, dev`stream, dev`issued, dev`refusals, dev`bufferReady, resp, this`readyEvent
      modifies this`pinnedSize, this`pinnedOffset, this`pinnedBuffers
      modifies this`kernelSize, this`kernelOffset, this`kernelCount, this`kernelBuffers
      ensures resp.Valid()
      ensures Losses(old(resp.live), resp.live, old(dev.refusals), dev.refusals,
                     if route.TooLarge? then Range(input.first, input.last) else iset{})
      ensures dev.refusals == if route == Copied(false) then old(dev.refusals).Add(Range(input.first, input.last))
                              else old(dev.refusals)
      ensures !readyEvent ==> dev.bufferReady
      ensures cudaCopy <==> route == Copied(true) && Streams(input, t)
      ensures route == if offset + input.size > t.size then TooLarge
                       else if UsesPinned(input, usePinned) then ToPinned
                       else if UsesKernel(input, t, useKernel) then ToKernel
                       else Copied(route.Copied? && route.ok)
      ensures resp.live == if route == TooLarge || route == Copied(false)
                           then NullRange(old(resp.live), input.first, input.last) else old(resp.live)
      ensures route.Copied? && !NeedsDevice(input, t) ==>
                route.ok == !(input.size > 0 && (input.ptr.IsNull() || t.ptr.Plus(offset).IsNull()))
      ensures route != Copied(true) ==> dev.mem == old(dev.mem) && dev.stream == old(dev.stream)
      ensures route == Copied(true) && cudaCopy ==>
                dev.mem == old(dev.mem) && dev.stream == old(dev.stream) + [ToCopy(input, t, offset)]
      ensures dev.issued == old(dev.issued) + if route == Copied(true) then [IssueOf(input, t, offset)] else []
      ensures route == Copied(true) && !cudaCopy ==>
                dev.mem == Apply(old(dev.mem), ToCopy(input, t, offset)) && dev.stream == old(dev.stream)
      ensures if route == ToPinned then
                && pinnedBuffers == old(pinnedBuffers) + [input] && pinnedSize == old(pinnedSize) + input.size
                && pinnedOffset == (if old(pinnedSize) == 0 then offset else old(pinnedOffset))
              else unchanged(this`pinnedBuffers, this`pinnedSize, this`pinnedOffset)
      ensures if route == ToKernel then
                && kernelBuffers == old(kernelBuffers) + [input] && kernelSize == old(kernelSize) + input.size
                && kernelOffset == (if old(kernelSize) == 0 then offset else old(kernelOffset))
                && kernelCount == old(kernelCount) + 1
              else unchanged(this`kernelBuffers, this`kernelSize, this`kernelOffset, this`kernelCount)
    {
      hide Losses, NullRange, Range, KernelChunk, IndependentOfAll, Apply, ResponseSet.Valid;
      NoLosses(resp.live, dev.refusals);
      RangeLost(resp.live, dev.refusals, input.first, input.last);
      cudaCopy := false;
      if offset + input.size > t.size {
        resp.FailRange(input.first, input.last, |dev.issued|);
        return false, TooLarge;
      }
      if UsesPinned(input, usePinned) {
        if pinnedSize == 0 {
          pinnedOffset := offset;
        }
        pinnedSize := pinnedSize + input.size;
        pinnedBuffers := pinnedBuffers + [input];
        return false, ToPinned;
      }
      if UsesKernel(input, t, useKernel) {
        if kernelSize == 0 {
          kernelOffset := offset;
        }
        kernelSize := kernelSize + input.size;
        kernelCount := kernelCount + 1;
        kernelBuffers := kernelBuffers + [input];
        return false, ToKernel;
      }
      if wait && readyEvent {
        dev.AwaitBuffer();
        readyEvent := false;
      }
      var ok, cudaUsed := dev.CopyBuffer(ToCopy(input, t, offset), copyOnStream, Range(input.first, input.last));
      if !ok {
        resp.FailRange(input.first, input.last, |dev.issued|);
      }
      return cudaUsed, Copied(ok);
    }

    /** Copies the pending buffers straight to the tensor, one by one. */
    method CopyDirectly(bufs: seq<Chunk>, t: Tensor, base: nat, ghost obs: seq<Obligation>,
                        ghost others: seq<Obligation>)
      returns (cudaCopy: bool)
      requires Base(inUse) && Window(bufs, obs, base, t, r, count) && Pending(obs + others)
      modifies dev`mem, dev`stream, dev`issued, dev`refusals, dev`bufferReady, resp, this`readyEvent, this`r
      modifies this`pinnedSize, this`pinnedOffset, this`pinnedBuffers
      modifies this`kernelSize, this`kernelOffset, this`kernelCount, this`kernelBuffers
      ensures Base(inUse) && Pending(others) && Losses(old(resp.live), resp.live, old(dev.refusals), dev.refusals, iset{})
      ensures r == old(r).Take(t.ptr.Plus(base), Sizes(bufs))
      ensures cudaCopy ==> dev.gpuEnabled && bufs != []
      ensures AllNeedDevice(bufs, t) && !dev.refusals.any && dev.gpuEnabled && bufs != [] ==> cudaCopy
      ensures !cudaCopy ==> dev.stream == old(dev.stream)
      ensures bufs == [] ==> dev.mem == old(dev.mem) && dev.issued == old(dev.issued)
      ensures unchanged(this`pinnedBuffers, this`pinnedSize, this`pinnedOffset)
      ensures unchanged(this`kernelBuffers, this`kernelSize, this`kernelOffset, this`kernelCount)
    {
      hide Base, Pending, Losses, AllNeedDevice, Window;
      cudaCopy := false;
      var offset, i := 0, 0;
      ghost var r0 := r;
      NoLosses(resp.live, dev.refusals);
      WindowLength(bufs, obs, base, t, r, count, others);
      assert obs[0..] == obs;
      TakeNothing(r0, t.ptr.Plus(base));
      while i < |bufs|
        invariant i <= |bufs| && offset == Sizes(bufs[..i])
        invariant Base(inUse) && Pending(obs[i..] + others)
        invariant Losses(old(resp.live), resp.live, old(dev.refusals), dev.refusals, iset{})
        invariant r == r0.Take(t.ptr.Plus(base), Sizes(bufs[..i]))
        invariant cudaCopy ==> dev.gpuEnabled && bufs != []
        invariant AllNeedDevice(bufs, t) && !dev.refusals.any && dev.gpuEnabled && i > 0 ==> cudaCopy
        invariant !cudaCopy ==> dev.stream == old(dev.stream)
        invariant bufs == [] ==> dev.mem == old(dev.mem) && dev.issued == old(dev.issued)
        invariant unchanged(this`pinnedBuffers, this`pinnedSize, this`pinnedOffset)
        invariant unchanged(this`kernelBuffers, this`kernelSize, this`kernelOffset, this`kernelCount)
      {
        WindowAt(bufs, obs, base, t, r0, count, i);
        WindowItem(bufs, obs, base, t, r0, count, i);
        DropHead(obs, others, i);
        ghost var live, f := resp.live, dev.refusals;
        var cuda := CopyOne(bufs[i], t, base + offset, obs[i], obs[i..] + others, obs[i + 1..] + others);
        LossesJoin(old(resp.live), live, resp.live, old(dev.refusals), f, dev.refusals, iset{}, iset{});
        NeedsOne(bufs, t, i);
        cudaCopy := cudaCopy || cuda;
        offset := offset + bufs[i].size;
        i := i + 1;
      }
      assert bufs[..i] == bufs;
      assert obs[i..] + others == others;
    }

    lemma {:induction false} NeedGrows(bufs: seq<Chunk>, c: Chunk, t: Tensor)
      ensures AllNeedDevice(bufs + [c], t) <==> AllNeedDevice(bufs, t) && NeedsDevice(c, t)
    {
      assert c in bufs + [c] && forall b | b in bufs :: b in bufs + [c];
    }

    /** A chunk is staged exactly if pinned memory may be used, and one of the chunk and the
        tensor is in GPU memory and the other in host memory that is not pinned.  Chunks are
        only held back when their copies take the device. */
    lemma {:induction false} PendingNeeds(c: Chunk, t: Tensor)
      ensures UsesPinned(c, PinnedFor(t)) <==> pinnedEnabled && Crosses(c.ptr.space.Type(), t.ptr.space.Type())
      ensures UsesPinned(c, PinnedFor(t)) ==> NeedsDevice(c, t)
      ensures KernelChunk(c, t) ==> NeedsDevice(c, t) && !UsesPinned(c, PinnedFor(t))
    {}

    lemma {:induction false} NeedsOne(bufs: seq<Chunk>, t: Tensor, i: nat)
      requires i < |bufs|
      ensures AllNeedDevice(bufs, t) && dev.gpuEnabled ==> Streams(bufs[i], t)
    {}

    /** One pending obligation is met, or its responses fail. */
    method CopyOne(input: Chunk, t: Tensor, offset: nat, ghost ob: Obligation,
                   ghost pending0: seq<Obligation>, ghost pending1: seq<Obligation>)
      returns (cudaCopy: bool)
      requires Base(inUse) && Pending(pending0) && Named(input, count) && offset + input.size <= t.size
      requires ob.first == input.first && ob.last == input.last && ob.copy.n == input.size
      requires input.size > 0 ==> ob.copy == ToCopy(input, t, offset)
      requires Within(input.ptr, input.size, r.inputs) && Within(t.ptr.Plus(offset), input.size, r.unwritten)
      requires forall o | o in pending0 :: o == ob || o in pending1
      modifies dev`mem, dev`stream, dev`issued, dev`refusals, dev`bufferReady, resp, this`readyEvent, this`r
      modifies this`pinnedSize, this`pinnedOffset, this`pinnedBuffers
      modifies this`kernelSize, this`kernelOffset, this`kernelCount, this`kernelBuffers
      ensures Base(inUse) && Pending(pending1)
      ensures Losses(old(resp.live), resp.live, old(dev.refusals), dev.refusals, iset{})
      ensures r == old(r).Take(t.ptr.Plus(offset), input.size)
      ensures if dev.refusals.any then cudaCopy ==> Streams(input, t) else cudaCopy == Streams(input, t)
      ensures !cudaCopy ==> dev.stream == old(dev.stream)
      ensures unchanged(this`pinnedBuffers, this`pinnedSize, this`pinnedOffset)
      ensures unchanged(this`kernelBuffers, this`kernelSize, this`kernelOffset, this`kernelCount)
    {
      var c := ToCopy(input, t, offset);
      ghost var v := Now();
      QueueIndependent(v, orig, obls, inUse, c);
      ghost var route;
      cudaCopy, route := SetInputTensor(input, t, offset, CpuPinned, false, true);
      r := r.Take(c.dst, c.n);
      DirectCopy(v, Now(), orig, obls, inUse, ob, c, route.ok, pending0, pending1);
    }

    /** A copy of the chunk into staging memory goes to the stream. */
    predicate StagesOnStream(c: Chunk) {
      dev.gpuEnabled && (copyOnStream || c.ptr.space.Type() == Gpu)
    }

    /** Copies the pending buffers into staging region s, one behind the other. */
    method StageBuffers(s: nat, ghost pending: seq<Obligation>) returns (cudaUsed: bool)
      requires Base(inUse + {s}) && Pending(pending) && StagingUse(Now().Queue(), s, 0)
      requires pinnedSize == Sizes(pinnedBuffers)
      requires forall b | b in pinnedBuffers :: Named(b, count) && Within(b.ptr, b.size, r.inputs)
      modifies dev`mem, dev`stream, dev`issued, dev`refusals, dev`bufferReady, resp, this`readyEvent
      modifies this`pinnedSize, this`pinnedOffset, this`pinnedBuffers
      modifies this`kernelSize, this`kernelOffset, this`kernelCount, this`kernelBuffers
      ensures Base(inUse + {s}) && Pending(pending)
      ensures Losses(old(resp.live), resp.live, old(dev.refusals), dev.refusals, iset{})
      ensures StagingUse(Now().Queue(), s, pinnedSize)
      ensures Staged(Now().Eventual(), orig, resp.live, s, pinnedBuffers, |pinnedBuffers|)
      ensures cudaUsed ==> dev.gpuEnabled
      ensures !cudaUsed ==> dev.stream == old(dev.stream)
      ensures !dev.refusals.any ==> forall b | b in pinnedBuffers :: StagesOnStream(b) ==> cudaUsed
      ensures unchanged(this`pinnedBuffers, this`pinnedSize, this`pinnedOffset)
      ensures unchanged(this`kernelBuffers, this`kernelSize, this`kernelOffset, this`kernelCount)
    {
      hide Base, Pending, Losses, View.Eventual, View.Queue, StagingUse, Staged, Sizes;
      cudaUsed := false;
      var offset, i := 0, 0;
      StagingStarts(s);
      while i < |pinnedBuffers|
        invariant i <= |pinnedBuffers| && offset == Sizes(pinnedBuffers[..i])
        invariant Base(inUse + {s}) && Pending(pending)
        invariant Losses(old(resp.live), resp.live, old(dev.refusals), dev.refusals, iset{})
        invariant StagingUse(Now().Queue(), s, offset)
        invariant Staged(Now().Eventual(), orig, resp.live, s, pinnedBuffers, i)
        invariant cudaUsed ==> dev.gpuEnabled
        invariant !cudaUsed ==> dev.stream == old(dev.stream)
        invariant !dev.refusals.any ==> forall j | 0 <= j < i :: StagesOnStream(pinnedBuffers[j]) ==> cudaUsed
        invariant unchanged(this`pinnedBuffers, this`pinnedSize, this`pinnedOffset)
        invariant unchanged(this`kernelBuffers, this`kernelSize, this`kernelOffset, this`kernelCount)
      {
        ghost var live, f := resp.live, dev.refusals;
        var cuda := StageOne(s, i, offset, pending);
        LossesJoin(old(resp.live), live, resp.live, old(dev.refusals), f, dev.refusals, iset{}, iset{});
        cudaUsed := cudaUsed || cuda;
        offset := offset + pinnedBuffers[i].size;
        i := i + 1;
      }
      assert pinnedBuffers[..i] == pinnedBuffers;
    }

    lemma {:induction false} StagingStarts(s: nat)
      ensures Sizes(pinnedBuffers[..0]) == 0 && Losses(resp.live, resp.live, dev.refusals, dev.refusals, iset{})
      ensures Staged(Now().Eventual(), orig, resp.live, s, pinnedBuffers, 0)
    {
      assert pinnedBuffers[..0] == [];
    }

    method StageOne(s: nat, i: nat, offset: nat, ghost pending: seq<Obligation>) returns (cudaUsed: bool)
      requires Base(inUse + {s}) && Pending(pending) && StagingUse(Now().Queue(), s, offset)
      requires i < |pinnedBuffers| && pinnedSize == Sizes(pinnedBuffers) && offset == Sizes(pinnedBuffers[..i])
      requires Named(pinnedBuffers[i], count) && Within(pinnedBuffers[i].ptr, pinnedBuffers[i].size, r.inputs)
      requires Staged(Now().Eventual(), orig, resp.live, s, pinnedBuffers, i)
      modifies dev`mem, dev`stream, dev`issued, dev`refusals, dev`bufferReady, resp, this`readyEvent
      modifies this`pinnedSize, this`pinnedOffset, this`pinnedBuffers
      modifies this`kernelSize, this`kernelOffset, this`kernelCount, this`kernelBuffers
      ensures unchanged(this`pinnedBuffers, this`pinnedSize, this`pinnedOffset)
      ensures unchanged(this`kernelBuffers, this`kernelSize, this`kernelOffset, this`kernelCount)
      ensures Base(inUse + {s}) && Pending(pending)
      ensures Losses(old(resp.live), resp.live, old(dev.refusals), dev.refusals, iset{})
      ensures StagingUse(Now().Queue(), s, Sizes(pinnedBuffers[..i + 1]))
      ensures Sizes(pinnedBuffers[..i + 1]) == offset + pinnedBuffers[i].size
      ensures Staged(Now().Eventual(), orig, resp.live, s, pinnedBuffers, i + 1)
      ensures cudaUsed ==> dev.gpuEnabled
      ensures !cudaUsed ==> dev.stream == old(dev.stream)
      ensures !dev.refusals.any && StagesOnStream(pinnedBuffers[i]) ==> cudaUsed
    {
      hide View.Ok, View.Pending, View.Eventual, View.Queue, Staged, StagingUse, Within, IndependentOfAll, Losses;
      hide Base, Pending, NullRange, Range, Apply;
      ghost var v, owned := Now(), inUse + {s};
      PartsOf(owned, pending);
      var buf := pinnedBuffers[i];
      ghost var c := Copy(buf.ptr, StagingAt(s, offset), buf.size);
      SizesStep(pinnedBuffers, i);
      StageIndependent(v, orig, obls, owned, s, offset, buf);
      ghost var route;
      cudaUsed, route := SetInputTensor(buf, Tensor(StagingAt(s, 0), pinnedSize), offset, CpuPinned, false, true);
      ghost var v1 := Now();
      StageKeeps(v, v1, orig, obls, owned, pending, s, offset, buf, c, route.ok);
      StageFills(v, v1, orig, obls, owned, s, pinnedBuffers, i, c, route.ok);
      StageEffect(v, v1, orig, obls, owned, s, offset, buf, c, route.ok);
      Whole(owned, pending);
    }

    /** Sends an error for every request of the window that has no response yet. */
    method FailRequests(requests: seq<Chunk>)
      requires resp.Valid() && forall b | b in requests :: Named(b, |resp.live|)
      modifies resp
      ensures resp.Valid() && OnlyNulled(old(resp.live), resp.live)
      ensures forall b | b in requests :: AllNull(resp.live, b.first, b.last)
      ensures forall k: nat | k < |resp.live| && old(resp.live)[k] && !resp.live[k] :: HasPart(requests, k)
    {
      var i := 0;
      while i < |requests|
        invariant i <= |requests| && resp.Valid() && OnlyNulled(old(resp.live), resp.live)
        invariant forall j | 0 <= j < i :: AllNull(resp.live, requests[j].first, requests[j].last)
        invariant forall k: nat | k < |resp.live| && old(resp.live)[k] && !resp.live[k] :: HasPart(requests, k)
      {
        assert requests[i] in requests;
        resp.FailRange(requests[i].first, requests[i].last, |dev.issued|);
        i := i + 1;
      }
    }

    /** Asks for a staging region of its own. */
    method AllocateStaging(ghost pending: seq<Obligation>) returns (ok: bool, s: nat)
      requires Base(inUse) && Pending(pending)
      modifies dev`nextSerial
      ensures Base(inUse) && Pending(pending) && dev.nextSerial >= old(dev.nextSerial)
      ensures ok ==> s !in inUse && s < dev.nextSerial
    {
      hide View.Ok, View.Pending;
      ok, s := dev.AllocateStaging();
    }

    /** Brings the pending window to the tensor: through staging memory if there
        is room for it, else buffer by buffer. */
    method FlushPendingPinned(t: Tensor, ghost obs: seq<Obligation>, ghost others: seq<Obligation>)
      returns (cudaCopy: bool)
      requires Base(inUse) && Pending(obs + others)
      requires pinnedSize == Sizes(pinnedBuffers) && Window(pinnedBuffers, obs, pinnedOffset, t, r, count)
      requires forall o | o in others :: Apart(o.copy.dst, o.copy.n, t.ptr.Plus(pinnedOffset), pinnedSize)
      modifies dev`mem, dev`stream, dev`issued, dev`refusals, dev`bufferReady, dev`nextSerial, resp, this`readyEvent, this`r
      modifies this`pinnedSize, this`pinnedOffset, this`pinnedBuffers, this`deferred, this`inUse
      modifies this`kernelSize, this`kernelOffset, this`kernelCount, this`kernelBuffers
      ensures unchanged(this`kernelBuffers, this`kernelSize, this`kernelOffset, this`kernelCount)
      ensures Base(inUse) && Pending(others) && Losses(old(resp.live), resp.live, old(dev.refusals), dev.refusals, iset{})
      ensures pinnedSize == 0 && pinnedOffset == 0 && pinnedBuffers == []
      ensures r == old(r).Take(t.ptr.Plus(old(pinnedOffset)), old(pinnedSize))
      ensures inUse >= old(inUse)
      ensures cudaCopy ==> dev.gpuEnabled && old(pinnedBuffers) != []
      ensures old(AllNeedDevice(pinnedBuffers, t) && dev.gpuEnabled && pinnedBuffers != []) && !dev.refusals.any ==> cudaCopy
      ensures !cudaCopy ==> dev.stream == old(dev.stream) && deferred == old(deferred)
      ensures old(pinnedBuffers) == [] ==> dev.mem == old(dev.mem) && dev.issued == old(dev.issued)
      ensures dev.nextSerial >= old(dev.nextSerial)
    {
      hide Base, Pending, Window, Losses, AllNeedDevice;
      var staging, s := false, 0;
      if pinnedSize > 0 {
        staging, s := AllocateStaging(obs + others);
      }
      if !staging {
        cudaCopy := CopyDirectly(pinnedBuffers, t, pinnedOffset, obs, others);
      } else {
        cudaCopy := FlushThroughStaging(t, s, obs, others);
      }
      pinnedSize, pinnedOffset, pinnedBuffers := 0, 0, [];
      if staging {
        inUse := inUse + {s};
      }
    }

    method FlushThroughStaging(t: Tensor, s: nat, ghost obs: seq<Obligation>, ghost others: seq<Obligation>)
      returns (cudaCopy: bool)
      requires Base(inUse) && Pending(obs + others) && s !in inUse && s < dev.nextSerial
      requires pinnedSize == Sizes(pinnedBuffers) && Window(pinnedBuffers, obs, pinnedOffset, t, r, count)
      requires forall o | o in others :: Apart(o.copy.dst, o.copy.n, t.ptr.Plus(pinnedOffset), pinnedSize)
      modifies dev`mem, dev`stream, dev`issued, dev`refusals, dev`bufferReady, resp, this`readyEvent, this`r, this`deferred
      modifies this`pinnedSize, this`pinnedOffset, this`pinnedBuffers
      modifies this`kernelSize, this`kernelOffset, this`kernelCount, this`kernelBuffers
      ensures unchanged(this`kernelBuffers, this`kernelSize, this`kernelOffset, this`kernelCount)
      ensures Base(inUse + {s}) && Pending(others)
      ensures Losses(old(resp.live), resp.live, old(dev.refusals), dev.refusals, iset{})
      ensures r == old(r).Take(t.ptr.Plus(old(pinnedOffset)), old(pinnedSize))
      ensures cudaCopy ==> dev.gpuEnabled
      ensures old(AllNeedDevice(pinnedBuffers, t) && dev.gpuEnabled && pinnedBuffers != []) && !dev.refusals.any ==> cudaCopy
      ensures !cudaCopy ==> dev.stream == old(dev.stream) && deferred == old(deferred)
    {
      hide View.Ok, View.Pending, Window, Staged, StagingUse, Losses;
      ghost var live, f := resp.live, dev.refusals;
      OwnStaging(Now(), orig, obls, inUse, s);
      WindowBuffers(pinnedBuffers, obs, pinnedOffset, t, r, count);
      assert AllNeedDevice(pinnedBuffers, t) && pinnedBuffers != [] ==> NeedsDevice(pinnedBuffers[0], t);
      var staged := StageBuffers(s, obs + others);
      ghost var live1, f1 := resp.live, dev.refusals;
      assert pinnedBuffers != [] ==> pinnedBuffers[0] in pinnedBuffers;
      cudaCopy := LeaveStaging(t, s, staged, obs, others);
      LossesJoin(live, live1, resp.live, f, f1, dev.refusals, iset{}, iset{});
    }

    /** Copies the staging buffer to the tensor now, or in Finalize when copies
        into it are still on the stream. */
    method LeaveStaging(t: Tensor, s: nat, staged: bool, ghost obs: seq<Obligation>, ghost others: seq<Obligation>)
      returns (cudaCopy: bool)
      requires Base(inUse + {s}) && Pending(obs + others)
      requires pinnedSize == Sizes(pinnedBuffers) && Window(pinnedBuffers, obs, pinnedOffset, t, r, count)
      requires forall o | o in others :: Apart(o.copy.dst, o.copy.n, t.ptr.Plus(pinnedOffset), pinnedSize)
      requires Staged(Now().Eventual(), orig, resp.live, s, pinnedBuffers, |pinnedBuffers|)
      requires staged ==> dev.gpuEnabled
      requires !staged ==> forall op | op in dev.stream :: forall l: Loc | In(l, op.dst, op.n) :: l.space != Staging(s)
      modifies dev`mem, dev`stream, dev`issued, dev`refusals, dev`bufferReady, resp, this`readyEvent, this`r, this`deferred
      ensures Base(inUse + {s}) && Pending(others)
      ensures Losses(old(resp.live), resp.live, old(dev.refusals), dev.refusals, iset{})
      ensures r == old(r).Take(t.ptr.Plus(old(pinnedOffset)), old(pinnedSize))
      ensures cudaCopy ==> dev.gpuEnabled
      ensures staged || (dev.gpuEnabled && t.ptr.space.Type() == Gpu && !dev.refusals.any) ==> cudaCopy
      ensures !cudaCopy ==> dev.stream == old(dev.stream) && deferred == old(deferred)
    {
      hide Base, Pending, Healthy, View.Ok, View.Pending, Window, Staged, Within, IndependentOfAll, Regions.Take;
      var c := Copy(StagingAt(s, 0), t.ptr.Plus(pinnedOffset), pinnedSize);
      ghost var v, owned := Now(), inUse + {s};
      PartsOf(owned, obs + others);
      WindowBuffers(pinnedBuffers, obs, pinnedOffset, t, r, count);
      WindowIndependent(v, orig, obls, owned, c, s);
      ghost var how;
      cudaCopy, how := CopyOrDefer(c, staged, owned);
      r := r.Take(c.dst, c.n);
      WindowCopy(v, Now(), orig, obls, owned, s, pinnedBuffers, obs, others, pinnedOffset, t, how);
      Whole(owned, others);
    }

    lemma {:induction false} PartsOf(owned: set<nat>, pending: seq<Obligation>)
      requires Base(owned) && Pending(pending)
      ensures Now().Ok(orig, obls, owned) && Now().Pending(orig, obls, pending) && Healthy(owned)
      ensures |resp.live| == count
    {}

    lemma {:induction false} Whole(owned: set<nat>, pending: seq<Obligation>)
      requires Now().Ok(orig, obls, owned) && Now().Pending(orig, obls, pending) && Healthy(owned)
      ensures Base(owned) && Pending(pending)
    {}

    method CopyOrDefer(c: Copy, staged: bool, ghost owned: set<nat>) returns (cudaCopy: bool, ghost how: Outcome)
      requires Healthy(owned) && forall b | b in pinnedBuffers :: Named(b, count)
      requires !staged ==> IndependentOfAll(c, dev.stream)
      requires staged ==> dev.gpuEnabled
      modifies dev`mem, dev`stream, dev`issued, dev`refusals, dev`bufferReady, resp, this`readyEvent, this`deferred
      ensures Healthy(owned) && Losses(old(resp.live), resp.live, old(dev.refusals), dev.refusals, iset{})
      ensures how.AtOnce? ==> !staged && dev.mem == Apply(old(dev.mem), c) && dev.stream == old(dev.stream)
      ensures how.OnStream? ==> dev.mem == old(dev.mem) && dev.stream == old(dev.stream) + [c]
      ensures how.Later? || how.Refused? ==> dev.mem == old(dev.mem) && dev.stream == old(dev.stream)
      ensures deferred == old(deferred) + (if how.Later? then [DeferredPinned(c, pinnedBuffers)] else [])
      ensures how.Refused? ==> forall b | b in pinnedBuffers :: AllNull(resp.live, b.first, b.last)
      ensures cudaCopy == (how.OnStream? || how.Later?) && (cudaCopy ==> dev.gpuEnabled) && (staged ==> how.Later?)
      ensures dev.refusals == if how.Refused? then old(dev.refusals).Add(ResponsesOf(pinnedBuffers)) else old(dev.refusals)
      ensures !staged && !how.Refused? ==> cudaCopy == dev.UsesStream(c, copyOnStream)
    {
      if !staged {
        cudaCopy, how := CopyWindow(c);
      } else {
        deferred := deferred + [DeferredPinned(c, pinnedBuffers)];
        cudaCopy, how := true, Later;
      }
    }

    /** The staging buffer is full: copies it to the tensor. */
    method CopyWindow(c: Copy) returns (cudaCopy: bool, ghost how: Outcome)
      requires resp.Valid() && forall b | b in pinnedBuffers :: Named(b, |resp.live|)
      requires IndependentOfAll(c, dev.stream) && (!readyEvent ==> dev.bufferReady)
      modifies dev`mem, dev`stream, dev`issued, dev`refusals, dev`bufferReady, resp, this`readyEvent
      ensures resp.Valid() && Losses(old(resp.live), resp.live, old(dev.refusals), dev.refusals, iset{})
      ensures !readyEvent && dev.bufferReady
      ensures how == if cudaCopy then OnStream else if how.AtOnce? then AtOnce else Refused
      ensures how.Refused? ==> forall b | b in pinnedBuffers :: AllNull(resp.live, b.first, b.last)
      ensures dev.mem == (if how.AtOnce? then Apply(old(dev.mem), c) else old(dev.mem))
      ensures dev.stream == old(dev.stream) + (if how.OnStream? then [c] else [])
      ensures cudaCopy ==> dev.gpuEnabled
      ensures dev.refusals == if how.Refused? then old(dev.refusals).Add(ResponsesOf(pinnedBuffers)) else old(dev.refusals)
      ensures !how.Refused? ==> cudaCopy == dev.UsesStream(c, copyOnStream)
    {
      if readyEvent {
        dev.AwaitBuffer();
        readyEvent := false;
      }
      var ok;
      ok, cudaCopy := dev.CopyBuffer(c, copyOnStream, ResponsesOf(pinnedBuffers));
      how := if !ok then Refused else if cudaCopy then OnStream else AtOnce;
      if !ok {
        FailRequests(pinnedBuffers);
      }
    }

    /** Tries to launch the gather kernel for the pending buffers. */
    method LaunchCopyKernel(t: Tensor, ghost obs: seq<Obligation>, ghost others: seq<Obligation>) returns (ok: bool)
      requires Base(inUse) && Pending(obs + others)
      requires kernelSize == Sizes(kernelBuffers) && Window(kernelBuffers, obs, kernelOffset, t, r, count)
      modifies dev`stream, dev`issued, dev`astray, dev`bufferReady, this`readyEvent, this`r
      ensures dev.astray <==> old(dev.astray) || (ok && !Launch(kernelBuffers, t.ptr.Plus(kernelOffset)).Fits())
      ensures Base(inUse) && Pending(if ok then others else obs + others)
      ensures ok ==> dev.gpuEnabled && r == old(r).Take(t.ptr.Plus(kernelOffset), kernelSize)
      ensures !ok ==> r == old(r) && dev.stream == old(dev.stream)
    {
      hide View.Ok, View.Pending, Window, Independent, IndependentOfAll, Launch.Fits, Launch.Disjoint, EveryRunGives;
      LaunchIndependent(Now(), orig, obls, inUse, kernelBuffers, obs, kernelOffset, t, count);
      LaunchDisjoint(Now(), orig, obls, inUse, kernelBuffers, obs, kernelOffset, t, count);
      var offsets := OffsetTable(kernelBuffers);
      // Room on the device for the tables of pointers, sizes and offsets.
      var tables: bool := *;
      if !dev.gpuEnabled || !tables {
        return false;
      }
      if readyEvent {
        dev.AwaitBuffer();
        readyEvent := false;
      }
      ghost var v := Now();
      ok := dev.LaunchGather(kernelBuffers, offsets, t, kernelOffset);
      if ok {
        r := r.Take(t.ptr.Plus(kernelOffset), kernelSize);
        KernelLaunch(v, orig, obls, inUse, kernelBuffers, obs, others, kernelOffset, t, count, |kernelBuffers|);
        LaunchedAll(v, kernelBuffers, t, kernelOffset);
        WindowLength(kernelBuffers, obs, kernelOffset, t, v.r, count, others);
      }
    }

    /** Brings the pending kernel window to the tensor: with one kernel when there
        are enough buffers and it can be launched, else buffer by buffer. */
    method FlushPendingCopyKernel(t: Tensor, ghost obs: seq<Obligation>, ghost others: seq<Obligation>)
      returns (cudaCopy: bool)
      requires Base(inUse) && Pending(obs + others) && kernelCount == |kernelBuffers|
      requires kernelBuffers == [] ==> kernelOffset == 0
      requires kernelSize == Sizes(kernelBuffers) && Window(kernelBuffers, obs, kernelOffset, t, r, count)
      modifies dev`mem, dev`stream, dev`issued, dev`astray, dev`refusals, dev`bufferReady, resp, this`readyEvent, this`r
      modifies this`pinnedSize, this`pinnedOffset, this`pinnedBuffers
      modifies this`kernelSize, this`kernelOffset, this`kernelCount, this`kernelBuffers
      ensures unchanged(this`pinnedBuffers, this`pinnedSize, this`pinnedOffset)
      ensures Base(inUse) && Pending(others) && Losses(old(resp.live), resp.live, old(dev.refusals), dev.refusals, iset{})
      ensures kernelBuffers == [] && kernelSize == 0 == kernelCount && kernelOffset == 0
      ensures r == old(r).Take(t.ptr.Plus(old(kernelOffset)), old(kernelSize))
      ensures cudaCopy ==> dev.gpuEnabled && old(kernelBuffers) != []
      ensures old(AllNeedDevice(kernelBuffers, t) && dev.gpuEnabled && kernelBuffers != []) && !dev.refusals.any ==> cudaCopy
      ensures !cudaCopy ==> dev.stream == old(dev.stream)
      ensures old(kernelBuffers) == [] ==> dev.mem == old(dev.mem) && dev.issued == old(dev.issued)
      ensures !old(dev.astray) && WindowFits(old(KernelWin(obs)), t, kernelThreshold) ==> !dev.astray
    {
      hide Base, Pending, Window, Regions.Take, Launch.Fits, AllNeedDevice;
      WindowLength(kernelBuffers, obs, kernelOffset, t, r, count, others);
      if |kernelBuffers| == 0 {
        TakeNothing(r, t.ptr.Plus(kernelOffset));
        assert obs + others == others;
        return false;
      }
      cudaCopy := LaunchOrCopy(t, obs, others);
      kernelSize, kernelOffset, kernelCount, kernelBuffers := 0, 0, 0, [];
    }

    method LaunchOrCopy(t: Tensor, ghost obs: seq<Obligation>, ghost others: seq<Obligation>) returns (cudaCopy: bool)
      requires Base(inUse) && Pending(obs + others)
      requires kernelSize == Sizes(kernelBuffers) && Window(kernelBuffers, obs, kernelOffset, t, r, count)
      requires kernelBuffers != [] && kernelCount == |kernelBuffers|
      modifies dev`mem, dev`stream, dev`issued, dev`astray, dev`refusals, dev`bufferReady, resp, this`readyEvent, this`r
      ensures !old(dev.astray) && WindowFits(old(KernelWin(obs)), t, kernelThreshold) ==> !dev.astray
      modifies this`pinnedSize, this`pinnedOffset, this`pinnedBuffers
      modifies this`kernelSize, this`kernelOffset, this`kernelCount, this`kernelBuffers
      ensures unchanged(this`pinnedBuffers, this`pinnedSize, this`pinnedOffset)
      ensures Base(inUse) && Pending(others) && Losses(old(resp.live), resp.live, old(dev.refusals), dev.refusals, iset{})
      ensures r == old(r).Take(t.ptr.Plus(old(kernelOffset)), old(kernelSize))
      ensures cudaCopy ==> dev.gpuEnabled
      ensures old(AllNeedDevice(kernelBuffers, t) && dev.gpuEnabled) && !dev.refusals.any ==> cudaCopy
      ensures !cudaCopy ==> dev.stream == old(dev.stream)
    {
      hide Base, Pending, Window, Regions.Take, Launch.Fits, AllNeedDevice;
      var launched := false;
      if kernelCount >= kernelThreshold {
        launched := LaunchCopyKernel(t, obs, others);
      }
      cudaCopy := launched;
      if !launched {
        cudaCopy := CopyDirectly(kernelBuffers, t, kernelOffset, obs, others);
      }
    }

    ghost function PinnedWin(obs: seq<Obligation>): Win
      reads this`pinnedBuffers, this`pinnedOffset, this`pinnedSize
    {
      Win(pinnedBuffers, pinnedOffset, pinnedSize, obs)
    }

    ghost function KernelWin(obs: seq<Obligation>): Win
      reads this`kernelBuffers, this`kernelOffset, this`kernelSize
    {
      Win(kernelBuffers, kernelOffset, kernelSize, obs)
    }

    /** Inside a call, after the first `offset` bytes have been dealt with. */
    ghost predicate Gathering(t: Tensor, offset: nat, pinned: seq<Obligation>, kernel: seq<Obligation>)
      reads this, dev, resp
    {
      && Base(inUse) && Pending(pinned + kernel) && SyncTracked()
      && kernelCount == |kernelBuffers| && (kernelBuffers == [] ==> kernelOffset == 0)
      && Windows(PinnedWin(pinned), KernelWin(kernel), t, offset, r, count)
    }

    lemma {:induction false} NeedsGpu(cs: seq<Chunk>, t: Tensor)
      ensures (SomeStreams(cs, t) ==> dev.gpuEnabled) && AllNeedDevice([], t)
    {}

    method FlushPinned(t: Tensor, ghost w: Trip, ghost pinned: seq<Obligation>, ghost kernel: seq<Obligation>)
      requires Gathering(t, Sizes(w.done), pinned, kernel) && OnTrack(w, t)
      modifies dev`mem, dev`stream, dev`issued, dev`refusals, dev`bufferReady, dev`nextSerial, resp, this`readyEvent
      modifies this`r, this`needSync
      modifies this`pinnedSize, this`pinnedOffset, this`pinnedBuffers, this`deferred, this`inUse
      modifies this`kernelSize, this`kernelOffset, this`kernelCount, this`kernelBuffers
      ensures Gathering(t, Sizes(w.done), [], kernel) && OnTrack(w, t)
      ensures pinnedSize == 0 == pinnedOffset && pinnedBuffers == []
      ensures old(pinnedBuffers) == [] ==> dev.mem == old(dev.mem) && dev.issued == old(dev.issued) && deferred == old(deferred)
      ensures Losses(old(resp.live), resp.live, old(dev.refusals), dev.refusals, iset{}) && r.inputs == old(r).inputs
      ensures r.dests == old(r).dests
      ensures old(r).SpendsOnly(r, t.ptr, t.size)
      ensures unchanged(this`kernelBuffers, this`kernelSize, this`kernelOffset, this`kernelCount)
      ensures dev.nextSerial >= old(dev.nextSerial)
    {
      hide Base, Pending, Window, TailUnwritten, Sizes, KernelReady, SomeStreams, AllNeedDevice;
      NeedsGpu(w.done, t);
      WindowSpends(PinnedWin(pinned), KernelWin(kernel), t, Sizes(w.done), r, count);
      WindowsFlushed(PinnedWin(pinned), KernelWin(kernel), t, Sizes(w.done), r, count, 0);
      var cuda := FlushPendingPinned(t, pinned, kernel);
      needSync := needSync || cuda;
      assert [] + kernel == kernel;
    }

    method FlushKernel(t: Tensor, ghost w: Trip, ghost pinned: seq<Obligation>, ghost kernel: seq<Obligation>)
      requires Gathering(t, Sizes(w.done), pinned, kernel) && OnTrack(w, t)
      modifies dev`astray
      modifies dev`mem, dev`stream, dev`issued, dev`refusals, dev`bufferReady, resp, this`readyEvent, this`r, this`needSync
      modifies this`pinnedSize, this`pinnedOffset, this`pinnedBuffers
      modifies this`kernelSize, this`kernelOffset, this`kernelCount, this`kernelBuffers
      ensures Gathering(t, Sizes(w.done), pinned, []) && SyncKnown(w.done, t, w.before)
      ensures w.straight ==> !dev.astray
      ensures kernelSize == 0 == kernelOffset && kernelBuffers == []
      ensures old(kernelBuffers) == [] ==> dev.mem == old(dev.mem) && dev.issued == old(dev.issued)
      ensures Losses(old(resp.live), resp.live, old(dev.refusals), dev.refusals, iset{}) && r.inputs == old(r).inputs
      ensures r.dests == old(r).dests
      ensures old(r).SpendsOnly(r, t.ptr, t.size)
      ensures unchanged(this`pinnedBuffers, this`pinnedSize, this`pinnedOffset)
    {
      hide Base, Pending, Window, TailUnwritten, Sizes, SomeStreams, AllNeedDevice;
      ghost var offset := Sizes(w.done);
      NeedsGpu(w.done, t);
      Reorder(pinned, kernel);
      ghost var p, k, r0 := PinnedWin(pinned), KernelWin(kernel), r;
      WindowSpends(p, k, t, offset, r, count);
      WindowsSwap(p, k, t, offset, r, count);
      var cuda := FlushPendingCopyKernel(t, kernel, pinned);
      needSync := needSync || cuda;
      WindowsFlushed(k, p, t, offset, r0, count, 0);
      WindowsSwap(KernelWin([]), p, t, offset, r, count);
      assert pinned + [] == pinned;
    }

    /** Flushes a window that the chunk at offset would not continue. */
    method FlushGaps(t: Tensor, offset: nat, ghost w: Trip, ghost pinned0: seq<Obligation>,
                     ghost kernel0: seq<Obligation>)
      returns (ghost pinned: seq<Obligation>, ghost kernel: seq<Obligation>)
      requires Gathering(t, offset, pinned0, kernel0) && OnTrack(w, t) && offset == Sizes(w.done)
      modifies dev`astray
      modifies dev`mem, dev`stream, dev`issued, dev`refusals, dev`bufferReady, dev`nextSerial, resp, this`readyEvent
      modifies this`r, this`needSync
      modifies this`pinnedSize, this`pinnedOffset, this`pinnedBuffers, this`deferred, this`inUse
      modifies this`kernelSize, this`kernelOffset, this`kernelCount, this`kernelBuffers
      ensures Gathering(t, offset, pinned, kernel) && OnTrack(w, t)
      ensures old(pinnedBuffers) == [] ==> deferred == old(deferred)
      ensures old(!Waiting()) ==> dev.mem == old(dev.mem) && dev.issued == old(dev.issued)
      ensures Losses(old(resp.live), resp.live, old(dev.refusals), dev.refusals, iset{}) && r.inputs == old(r).inputs
      ensures r.dests == old(r).dests
      ensures old(r).SpendsOnly(r, t.ptr, t.size)
      ensures PinnedWin(pinned).EndsAt(offset) && KernelWin(kernel).EndsAt(offset)
      ensures dev.nextSerial >= old(dev.nextSerial)
    {
      hide Gathering, OnTrack, SyncKnown, Sizes, KernelReady;
      pinned, kernel := pinned0, kernel0;
      if pinnedSize > 0 && offset != pinnedSize + pinnedOffset {
        FlushPinned(t, w, pinned, kernel);
        pinned := [];
      }
      if kernelSize > 0 && offset != kernelSize + kernelOffset {
        KernelBroken(w, t);
        FlushKernel(t, w, pinned, kernel);
        kernel := [];
        TrackOn(w, t);
      }
    }

    lemma {:induction false} KernelBroken(w: Trip, t: Tensor)
      requires OnTrack(w, t) && kernelSize > 0 && Sizes(w.done) != kernelSize + kernelOffset
      ensures KernelReady(Win([], 0, 0, []), w.done, t, kernelThreshold, w.straight)
    {
      KernelReadyFlushed(KernelWin([]), w.done, t, kernelThreshold, w.straight);
    }

    lemma {:induction false} TrackOn(w: Trip, t: Tensor)
      requires SyncKnown(w.done, t, w.before) && KernelReady(Win([], 0, 0, []), w.done, t, kernelThreshold, w.straight)
      requires w.straight ==> !dev.astray
      requires kernelSize == 0 == kernelOffset && kernelBuffers == []
      ensures OnTrack(w, t)
    {}

    /** The next chunk is given to the tensor: it is copied, or becomes pending, or
        its responses fail. */
    method TakeChunk(input: Chunk, t: Tensor, offset: nat, usePinned: MemoryType, useKernel: bool, ghost w: Trip,
                     ghost pinned0: seq<Obligation>, ghost kernel0: seq<Obligation>)
      returns (ghost pinned: seq<Obligation>, ghost kernel: seq<Obligation>)
      requires Gathering(t, offset, pinned0, kernel0) && OnTrack(w, t) && offset == Sizes(w.done)
      requires usePinned == PinnedFor(t) && useKernel == (kernelThreshold != 0)
      requires |w.done| < |w.all| && w.done + [input] == w.all[..|w.done| + 1]
      requires w.straight ==> KernelFits(w.all, t, kernelThreshold)
      requires PinnedWin(pinned0).EndsAt(offset) && KernelWin(kernel0).EndsAt(offset)
      requires Named(input, count) && Within(input.ptr, input.size, r.inputs)
      modifies dev`mem, dev`stream, dev`issued, dev`refusals, dev`bufferReady, resp, this`readyEvent, this`r, this`needSync
      modifies this`obls
      modifies this`pinnedSize, this`pinnedOffset, this`pinnedBuffers
      modifies this`kernelSize, this`kernelOffset, this`kernelCount, this`kernelBuffers
      ensures Gathering(t, offset + input.size, pinned, kernel) && OnTrack(w.(done := w.done + [input]), t)
      ensures Losses(old(resp.live), resp.live, old(dev.refusals), dev.refusals,
                     if offset + input.size > t.size then Range(input.first, input.last) else iset{})
      ensures Direct() ==> OneIssued(old(dev.issued), dev.issued, input, t, offset, resp.live)
      ensures r.inputs == old(r).inputs && r.dests == old(r).dests
      ensures old(r).SpendsOnly(r, t.ptr, t.size)
      ensures obls == old(obls) + [Obligation(ToCopy(input, t, offset), input.first, input.last)]
    {
      hide OneIssued, IssueOf, Direct, PinnedFor, Base, Pending, Windows, View.Ok, View.Pending, Within, IndependentOfAll;
      hide Healthy, SyncTracked, OnTrack, Sizes, KernelFits, AllNull, Apply;
      ghost var ob := Obligation(ToCopy(input, t, offset), input.first, input.last);
      pinned, kernel := pinned0, kernel0;
      ghost var v, p, k := Now(), PinnedWin(pinned), KernelWin(kernel);
      PartsOf(inUse, pinned + kernel);
      WindowsSkip(p, k, t, offset, input.size, r, count);
      WindowsSizes(p, k, t, offset, r, count);
      ghost var route;
      route := OfferChunk(input, t, offset, usePinned, useKernel, w, k);
      if route.Copied? {
        RecordCopied(v, ob, route.ok, p, k, t, offset, input);
      } else {
        pinned, kernel := RecordUncopied(v, route, ob, p, k, t, offset, input);
      }
    }

    /** SetInputTensor for the tensor itself, with what it leaves to account for. */
    method OfferChunk(input: Chunk, t: Tensor, offset: nat, usePinned: MemoryType, useKernel: bool, ghost w: Trip,
                      ghost k: Win)
      returns (ghost route: Route)
      requires OnTrack(w, t) && offset == Sizes(w.done) && k == KernelWin(k.obs)
      requires k.size == Sizes(k.bufs) && k.EndsAt(offset)
      requires usePinned == PinnedFor(t) && useKernel == (kernelThreshold != 0)
      requires |w.done| < |w.all| && w.done + [input] == w.all[..|w.done| + 1]
      requires w.straight ==> KernelFits(w.all, t, kernelThreshold)
      requires Now().Ok(orig, obls, inUse) && Healthy(inUse) && SyncTracked() && Named(input, count)
      requires Within(input.ptr, input.size, r.inputs)
      requires offset + input.size <= t.size ==> Within(t.ptr.Plus(offset), input.size, r.unwritten)
      modifies dev`mem, dev`stream, dev`issued, dev`refusals, dev`bufferReady, resp, this`readyEvent, this`needSync
      modifies this`pinnedSize, this`pinnedOffset, this`pinnedBuffers
      modifies this`kernelSize, this`kernelOffset, this`kernelCount, this`kernelBuffers
      ensures Healthy(inUse) && SyncTracked() && OnTrack(w.(done := w.done + [input]), t)
      ensures Losses(old(resp.live), resp.live, old(dev.refusals), dev.refusals,
                     if offset + input.size > t.size then Range(input.first, input.last) else iset{})
      ensures dev.issued == old(dev.issued) + if route == Copied(true) then [IssueOf(input, t, offset)] else []
      ensures Direct() ==> OneIssued(old(dev.issued), dev.issued, input, t, offset, resp.live)
      ensures route.TooLarge? <==> offset + input.size > t.size
      ensures route == TooLarge || route == Copied(false) ==> AllNull(resp.live, input.first, input.last)
      ensures route != Copied(true) ==> dev.mem == old(dev.mem) && dev.stream == old(dev.stream)
      ensures route == Copied(true) ==>
                || (dev.mem == Apply(old(dev.mem), ToCopy(input, t, offset)) && dev.stream == old(dev.stream))
                || (dev.mem == old(dev.mem) && dev.stream == old(dev.stream) + [ToCopy(input, t, offset)])
      ensures PinnedWin([]) == (if route.ToPinned? then old(PinnedWin([])).Put(input, offset) else old(PinnedWin([])))
      ensures KernelWin([]) == (if route.ToKernel? then old(KernelWin([])).Put(input, offset) else old(KernelWin([])))
      ensures kernelCount == |kernelBuffers| <==> old(kernelCount == |kernelBuffers|)
      ensures kernelBuffers == [] ==> old(kernelBuffers) == [] && kernelOffset == old(kernelOffset)
    {
      hide NeedsDevice, PinnedFor, View.Ok, Within, Sizes, KernelReady, KernelFits, Healthy, SyncTracked, Apply;
      hide SomeStreams, Losses, AllNeedDevice, KernelChunk, AllNull, IssueOf;
      ghost var k0 := KernelWin([]);
      SomeStreamsStep(w.done, input, t);
      NeedGrows(pinnedBuffers, input, t);
      NeedGrows(kernelBuffers, input, t);
      PendingNeeds(input, t);
      route := PutChunk(input, t, offset, usePinned, useKernel);
      assert w.done == w.all[..|w.done|] && input == w.all[|w.done|];
      KernelReadyStep(k0, w.done, t, kernelThreshold, w.all, input, w.straight);
    }

    /** Puts it there, and notes when that takes the stream. */
    method PutChunk(input: Chunk, t: Tensor, offset: nat, usePinned: MemoryType, useKernel: bool)
      returns (ghost route: Route)
      requires Now().Ok(orig, obls, inUse) && Healthy(inUse) && SyncTracked() && Named(input, count)
      requires Within(input.ptr, input.size, r.inputs)
      requires offset + input.size <= t.size ==> Within(t.ptr.Plus(offset), input.size, r.unwritten)
      modifies dev`mem, dev`stream, dev`issued, dev`refusals, dev`bufferReady, resp, this`readyEvent, this`needSync
      modifies this`pinnedSize, this`pinnedOffset, this`pinnedBuffers
      modifies this`kernelSize, this`kernelOffset, this`kernelCount, this`kernelBuffers
      ensures Healthy(inUse) && SyncTracked()
      ensures Losses(old(resp.live), resp.live, old(dev.refusals), dev.refusals,
                     if offset + input.size > t.size then Range(input.first, input.last) else iset{})
      ensures needSync == (old(needSync) || (route == Copied(true) && Streams(input, t)))
      ensures if route == Copied(false) then dev.refusals.any else dev.refusals == old(dev.refusals)
      ensures route == if offset + input.size > t.size then TooLarge
                       else if UsesPinned(input, usePinned) then ToPinned
                       else if UsesKernel(input, t, useKernel) then ToKernel
                       else Copied(route.Copied? && route.ok)
      ensures dev.issued == old(dev.issued) + if route == Copied(true) then [IssueOf(input, t, offset)] else []
      ensures route == TooLarge || route == Copied(false) ==> AllNull(resp.live, input.first, input.last)
      ensures route != Copied(true) ==> dev.mem == old(dev.mem) && dev.stream == old(dev.stream)
      ensures route == Copied(true) ==>
                || (dev.mem == Apply(old(dev.mem), ToCopy(input, t, offset)) && dev.stream == old(dev.stream))
                || (dev.mem == old(dev.mem) && dev.stream == old(dev.stream) + [ToCopy(input, t, offset)])
      ensures PinnedWin([]) == (if route.ToPinned? then old(PinnedWin([])).Put(input, offset) else old(PinnedWin([])))
      ensures KernelWin([]) == (if route.ToKernel? then old(KernelWin([])).Put(input, offset) else old(KernelWin([])))
      ensures kernelCount == old(kernelCount) + |kernelBuffers| - old(|kernelBuffers|)
    {
      hide NeedsDevice, NullRange, Range, View.Ok, IndependentOfAll, Within, Losses, KernelChunk, Apply, IssueOf;
      if offset + input.size <= t.size {
        QueueIndependent(Now(), orig, obls, inUse, ToCopy(input, t, offset));
      }
      var cudaCopy;
      cudaCopy, route := SetInputTensor(input, t, offset, usePinned, useKernel, true);
      needSync := needSync || cudaCopy;
    }

    /** Accounts for a chunk that was copied, or whose copy was refused. */
    ghost method RecordCopied(v: View, ob: Obligation, ok: bool, p: Win, k: Win, t: Tensor, offset: nat, input: Chunk)
      requires v.Ok(orig, obls, inUse) && v.Pending(orig, obls, p.obs + k.obs) && Windows(p, k, t, offset, r, count)
      requires Healthy(inUse) && OnlyNulled(v.live, resp.live) && deferred == v.deferred && r == v.r
      requires ob == Obligation(ToCopy(input, t, offset), input.first, input.last) && Named(input, count)
      requires Within(ob.copy.src, ob.copy.n, r.inputs) && Within(ob.copy.dst, ob.copy.n, r.unwritten)
      requires || (!ok && dev.mem == v.mem && dev.stream == v.stream && AllNull(resp.live, ob.first, ob.last))
               || (ok && dev.mem == Apply(v.mem, ob.copy) && dev.stream == v.stream)
               || (ok && dev.mem == v.mem && dev.stream == v.stream + [ob.copy])
      requires p == PinnedWin(p.obs) && k == KernelWin(k.obs) && offset + input.size <= t.size
      modifies this`r, this`obls
      ensures obls == old(obls) + [ob] && Base(inUse) && Pending(p.obs + k.obs)
      ensures r.inputs == old(r).inputs && r.dests == old(r).dests
      ensures old(r).SpendsOnly(r, t.ptr, t.size)
      ensures Windows(PinnedWin(p.obs), KernelWin(k.obs), t, offset + input.size, r, count)
    {
      hide Windows, View.Ok, View.Pending;
      WindowsPast(p, k, t, offset, input.size, r, count);
      r := r.Take(ob.copy.dst, ob.copy.n);
      ChunkCopied(v, Now(), orig, obls, inUse, ob, ok, p.obs + k.obs);
      obls := obls + [ob];
    }

    /** Accounts for a chunk that did not fit or has become pending. */
    ghost method RecordUncopied(v: View, route: Route, ob: Obligation, p: Win, k: Win, t: Tensor, offset: nat,
                                input: Chunk)
      returns (pinned: seq<Obligation>, kernel: seq<Obligation>)
      requires v.Ok(orig, obls, inUse) && v.Pending(orig, obls, p.obs + k.obs)
      requires Now() == v.(live := resp.live) && OnlyNulled(v.live, resp.live) && Healthy(inUse)
      requires Windows(p, k, t, offset, r, count) && Windows(p, k, t, offset + input.size, r, count)
      requires Named(input, count) && Within(input.ptr, input.size, r.inputs)
      requires ob == Obligation(ToCopy(input, t, offset), input.first, input.last)
      requires route.TooLarge? ==> AllNull(resp.live, ob.first, ob.last)
      requires !route.TooLarge? ==> offset + input.size <= t.size && Within(ob.copy.dst, ob.copy.n, r.unwritten)
      requires !route.Copied? && PinnedWin(p.obs) == if route.ToPinned? then p.Put(input, offset) else p
      requires KernelWin(k.obs) == if route.ToKernel? then k.Put(input, offset) else k
      requires p.EndsAt(offset) && k.EndsAt(offset)
      modifies this`obls
      ensures obls == old(obls) + [ob] && Base(inUse) && Pending(pinned + kernel)
      ensures Windows(PinnedWin(pinned), KernelWin(kernel), t, offset + input.size, r, count)
    {
      hide Windows, View.Ok, View.Pending;
      pinned, kernel := p.obs, k.obs;
      match route {
        case TooLarge =>
          ChunkRefused(v, Now(), orig, obls, inUse, ob, pinned + kernel);
        case ToPinned =>
          ChunkPending(v, Now(), orig, obls, inUse, ob, pinned, kernel);
          WindowsGrow(p, k, t, offset, r, count, input, ob);
          pinned := pinned + [ob];
        case ToKernel =>
          ChunkPending(v, Now(), orig, obls, inUse, ob, pinned, kernel);
          WindowsSwap(p, k, t, offset, r, count);
          WindowsGrow(k, p, t, offset, r, count, input, ob);
          WindowsSwap(k.Add(input, offset, ob), p, t, offset + input.size, r, count);
          kernel := kernel + [ob];
      }
      obls := obls + [ob];
    }

    /** Takes a new destination into account. */
    ghost method OpenTensor(t: Tensor)
      requires Idle()
      requires forall l: Loc | In(l, t.ptr, t.size) :: l !in r.inputs && l !in r.dests && !l.space.Staging?
      modifies this`r
      ensures Gathering(t, 0, [], []) && r == old(r).Grant(t.ptr, t.size) && r.inputs == old(r.inputs)
      ensures !Waiting() && kernelSize == 0 == kernelOffset
    {
      ghost var v := Now();
      r := r.Grant(t.ptr, t.size);
      hide View.Ok, View.Pending;
      GrantTensor(v, Now(), orig, obls, inUse, t, []);
      hide TailUnwritten, Regions.Grant;
      var none: seq<Obligation> := [];
      assert none + none == none;
    }

    /** Done with the tensor: flushes whatever is still pending. */
    method FlushBoth(t: Tensor, ghost w: Trip, ghost pinned: seq<Obligation>, ghost kernel: seq<Obligation>)
      requires Gathering(t, Sizes(w.done), pinned, kernel) && OnTrack(w, t)
      modifies dev`astray
      modifies dev`mem, dev`stream, dev`issued, dev`refusals, dev`bufferReady, dev`nextSerial, resp, this`readyEvent
      modifies this`r, this`needSync
      modifies this`pinnedSize, this`pinnedOffset, this`pinnedBuffers, this`deferred, this`inUse
      modifies this`kernelSize, this`kernelOffset, this`kernelCount, this`kernelBuffers
      ensures Gathering(t, Sizes(w.done), [], []) && SyncKnown(w.done, t, w.before)
      ensures w.straight ==> !dev.astray
      ensures kernelBuffers == [] && kernelSize == 0
      ensures pinnedSize == 0 == pinnedOffset && pinnedBuffers == []
      ensures old(pinnedBuffers) == [] ==> deferred == old(deferred)
      ensures old(!Waiting()) ==> dev.mem == old(dev.mem) && dev.issued == old(dev.issued)
      ensures Losses(old(resp.live), resp.live, old(dev.refusals), dev.refusals, iset{})
      ensures r.inputs == old(r.inputs) && r.dests == old(r.dests) && dev.nextSerial >= old(dev.nextSerial)
      ensures old(r).SpendsOnly(r, t.ptr, t.size)
    {
      hide Gathering, OnTrack, SyncKnown, Sizes;
      FlushPinned(t, w, pinned, kernel);
      FlushKernel(t, w, [], kernel);
    }

    /** Flushes what is pending, and records the event when something is left to wait
        for. */
    method CloseTensor(t: Tensor, ghost w: Trip, ghost pinned: seq<Obligation>, ghost kernel: seq<Obligation>)
      requires Gathering(t, Sizes(w.done), pinned, kernel) && OnTrack(w, t)
      modifies dev`astray
      modifies dev`mem, dev`stream, dev`issued, dev`refusals, dev`bufferReady, dev`nextSerial, dev`marked, resp, this`readyEvent
      modifies this`r, this`needSync
      modifies this`pinnedSize, this`pinnedOffset, this`pinnedBuffers, this`deferred, this`inUse
      modifies this`kernelSize, this`kernelOffset, this`kernelCount, this`kernelBuffers
      ensures Idle() && Losses(old(resp.live), resp.live, old(dev.refusals), dev.refusals, iset{})
      ensures w.straight ==> !dev.astray
      ensures needSync ==> w.before || SomeStreams(w.done, t)
      ensures !dev.refusals.any ==> needSync == (w.before || SomeStreams(w.done, t))
      ensures !pinnedEnabled ==> deferred == old(deferred)
      ensures Direct() ==> dev.mem == old(dev.mem) && dev.issued == old(dev.issued)
      ensures TailUnwritten(t, Sizes(w.done), r)
      ensures r.inputs == old(r.inputs) && r.dests == old(r.dests) && dev.nextSerial >= old(dev.nextSerial)
      ensures old(r).SpendsOnly(r, t.ptr, t.size)
    {
      hide Base, Pending, Sizes, OnTrack, SyncKnown, SomeStreams, Losses, Windows;
      NothingWaits(w, t);
      FlushBoth(t, w, pinned, kernel);
      TripOver(w, t);
      TailLeft(t, Sizes(w.done));
      ghost var none: seq<Obligation> := [];
      assert none + none == none;
      if needSync && useEvent {
        dev.RecordEvent();
      }
    }

    /** Flushes what the next chunk would not continue, and gives it to the tensor. */
    method GiveChunk(input: Chunk, t: Tensor, offset: nat, usePinned: MemoryType, useKernel: bool, ghost w: Trip,
                     ghost pinned0: seq<Obligation>, ghost kernel0: seq<Obligation>)
      returns (ghost pinned: seq<Obligation>, ghost kernel: seq<Obligation>)
      requires Gathering(t, offset, pinned0, kernel0) && OnTrack(w, t) && offset == Sizes(w.done)
      requires usePinned == PinnedFor(t) && useKernel == (kernelThreshold != 0)
      requires |w.done| < |w.all| && w.done + [input] == w.all[..|w.done| + 1]
      requires w.straight ==> KernelFits(w.all, t, kernelThreshold)
      requires Named(input, count) && Within(input.ptr, input.size, r.inputs)
      modifies dev`astray
      modifies dev`mem, dev`stream, dev`issued, dev`refusals, dev`bufferReady, dev`nextSerial, resp, this`readyEvent
      modifies this`r, this`needSync, this`obls
      modifies this`pinnedSize, this`pinnedOffset, this`pinnedBuffers, this`deferred, this`inUse
      modifies this`kernelSize, this`kernelOffset, this`kernelCount, this`kernelBuffers
      ensures Gathering(t, offset + input.size, pinned, kernel) && OnTrack(w.(done := w.done + [input]), t)
      ensures Losses(old(resp.live), resp.live, old(dev.refusals), dev.refusals,
                     if offset + input.size > t.size then Range(input.first, input.last) else iset{})
      ensures !pinnedEnabled ==> deferred == old(deferred)
      ensures Direct() ==> OneIssued(old(dev.issued), dev.issued, input, t, offset, resp.live)
      ensures r.inputs == old(r).inputs && r.dests == old(r).dests && dev.nextSerial >= old(dev.nextSerial)
      ensures old(r).SpendsOnly(r, t.ptr, t.size)
      ensures obls == old(obls) + [Obligation(ToCopy(input, t, offset), input.first, input.last)]
    {
      hide Gathering, OnTrack, KernelFits, Losses, Within, Named, Sizes;
      NothingWaits(w, t);
      pinned, kernel := FlushGaps(t, offset, w, pinned0, kernel0);
      ghost var live, f := resp.live, dev.refusals;
      pinned, kernel := TakeChunk(input, t, offset, usePinned, useKernel, w, pinned, kernel);
      LossesJoin(old(resp.live), live, resp.live, old(dev.refusals), f, dev.refusals, iset{},
                 if offset + input.size > t.size then Range(input.first, input.last) else iset{});
      NoneAdded(if offset + input.size > t.size then Range(input.first, input.last) else iset{});
    }

    /** Walks the chunks of the input and gives each to the tensor. */
    method GatherChunks(requests: seq<Request>, t: Tensor)
      returns (ghost w: Trip, ghost pinned: seq<Obligation>, ghost kernel: seq<Obligation>)
      requires Gathering(t, 0, [], []) && |requests| > 0 && !Waiting() && kernelSize == 0 == kernelOffset
      requires GoodPieces(Delivered(requests, coalesce), r.inputs, count)
      modifies dev`astray
      modifies dev`mem, dev`stream, dev`issued, dev`refusals, dev`bufferReady, dev`nextSerial, resp, this`readyEvent
      modifies this`r, this`needSync, this`obls
      modifies this`pinnedSize, this`pinnedOffset, this`pinnedBuffers, this`deferred, this`inUse
      modifies this`kernelSize, this`kernelOffset, this`kernelCount, this`kernelBuffers
      ensures w.done == Chunks(Delivered(requests, coalesce), coalesce) && w.before == old(needSync)
      ensures w.straight == (!old(dev.astray) && KernelFits(w.done, t, kernelThreshold))
      ensures Gathering(t, Sizes(w.done), pinned, kernel) && OnTrack(w, t)
      ensures Losses(old(resp.live), resp.live, old(dev.refusals), dev.refusals, Unfit(w.done, t))
      ensures obls == old(obls) + CallObligations(t, w.done)
      ensures !pinnedEnabled ==> deferred == old(deferred)
      ensures Direct() ==> AllIssued(old(dev.issued), dev.issued, w.done, t, resp.live)
      ensures r.inputs == old(r.inputs) && r.dests == old(r.dests)
      ensures old(r).SpendsOnly(r, t.ptr, t.size)
      ensures dev.nextSerial >= old(dev.nextSerial)
    {
      hide Gathering, GoodPieces, Within, Delivered, Named, IsRun, Chunks, RunLength, Merge;
      hide InputIterator.Valid, InputIterator.Remaining, OnTrack, Sizes, KernelFits, FitsAt, Unfit, Losses, AllIssued;
      hide OneIssued, Streams, PinnedFor, Direct, Waiting, CallObligations;
      var usePinned := PinnedFor(t);
      var useKernel := kernelThreshold != 0;
      var offset := 0;
      ghost var all := Chunks(Delivered(requests, coalesce), coalesce);
      ghost var done: seq<Chunk> := [];
      ghost var straight := !dev.astray && KernelFits(all, t, kernelThreshold);
      StartTrip(all, t, straight);
      NoLosses(resp.live, dev.refusals);
      NoneIssued(dev.issued, t, resp.live);
      w := Trip([], all, needSync, straight);
      pinned, kernel := [], [];
      var ii := new InputIterator(requests, coalesce);
      assert done + Chunks(ii.Remaining(), coalesce) == all;
      var more := true;
      while more
        invariant ii.Valid() && ii.coalesce == coalesce && fresh(ii)
        invariant GoodPieces(ii.Remaining(), r.inputs, count)
        invariant done + Chunks(ii.Remaining(), coalesce) == all && offset == Sizes(done)
        invariant !more ==> ii.Remaining() == []
        invariant Gathering(t, offset, pinned, kernel) && w == Trip(done, all, old(needSync), straight) && OnTrack(w, t)
        invariant Losses(old(resp.live), resp.live, old(dev.refusals), dev.refusals, Unfit(done, t))
        invariant !pinnedEnabled ==> deferred == old(deferred)
        invariant Direct() ==> AllIssued(old(dev.issued), dev.issued, done, t, resp.live)
        invariant obls == old(obls) + CallObligations(t, done)
        invariant r.inputs == old(r.inputs) && r.dests == old(r.dests) && dev.nextSerial >= old(dev.nextSerial)
        invariant old(r).SpendsOnly(r, t.ptr, t.size)
        decreases |ii.Remaining()|, more
      {
        ghost var rest := ii.Remaining();
        var input;
        more, input := ii.GetNextContiguousInput();
        if more {
          NextChunk(done, rest, coalesce, all, input, ii.Remaining(), r.inputs, count);
          ghost var live, f, ops := resp.live, dev.refusals, dev.issued;
          pinned, kernel := GiveChunk(input, t, offset, usePinned, useKernel, w, pinned, kernel);
          CallObligationsStep(t, done, input);
          UnfitStep(done, input, t);
          if Direct() {
            OnlyLosses(live, resp.live, f, dev.refusals,
                       if offset + input.size > t.size then Range(input.first, input.last) else iset{});
            NextIssued(old(dev.issued), ops, dev.issued, done, input, t, live, resp.live);
          }
          LossesJoin(old(resp.live), live, resp.live, old(dev.refusals), f, dev.refusals, Unfit(done, t),
                     if offset + input.size > t.size then Range(input.first, input.last) else iset{});
          offset := offset + input.size;
          done := done + [input];
          w := w.(done := done);
        }
      }
      NoMoreChunks(done, coalesce);
    }

    /** Chunks are neither staged nor left to a kernel. */
    predicate Direct() {
      !pinnedEnabled && kernelThreshold == 0
    }

    lemma {:induction false} NothingWaits(w: Trip, t: Tensor)
      requires OnTrack(w, t)
      ensures (!pinnedEnabled ==> pinnedBuffers == []) && (Direct() ==> !Waiting())
    {}

    lemma {:induction false} StartTrip(all: seq<Chunk>, t: Tensor, straight: bool)
      requires !Waiting() && kernelSize == 0 == kernelOffset && (straight ==> !dev.astray)
      ensures OnTrack(Trip([], all, needSync, straight), t) && Sizes([]) == 0
      ensures Unfit([], t) == iset{} && CallObligations(t, []) == []
    {}

    /** Gathers one input of all requests into the tensor: afterwards every chunk
        the iterator delivers is an obligation at the offset that the chunks before
        it leave free, and nothing is pending. */
    method ProcessTensor(requests: seq<Request>, t: Tensor)
      requires Idle() && |requests| == count > 0
      requires forall l: Loc | In(l, t.ptr, t.size) :: l !in r.inputs && l !in r.dests && !l.space.Staging?
      requires forall p | p in Flatten(requests) :: Within(p.ptr, p.size, r.inputs)
      modifies this, dev`mem, dev`stream, dev`issued, dev`astray, dev`refusals, dev`bufferReady, dev`nextSerial
      modifies dev`marked, resp
      ensures Idle()
      ensures Losses(old(resp.live), resp.live, old(dev.refusals), dev.refusals,
                     Unfit(Chunks(Delivered(requests, coalesce), coalesce), t))
      ensures needSync ==> old(needSync) || SomeStreams(Chunks(Delivered(requests, coalesce), coalesce), t)
      ensures !dev.refusals.any ==>
                needSync == (old(needSync) || SomeStreams(Chunks(Delivered(requests, coalesce), coalesce), t))
      ensures !pinnedEnabled ==> deferred == old(deferred)
      ensures Direct() ==>
                AllIssued(old(dev.issued), dev.issued, Chunks(Delivered(requests, coalesce), coalesce), t, resp.live)
      ensures !old(dev.astray) && KernelFits(Chunks(Delivered(requests, coalesce), coalesce), t, kernelThreshold) ==>
                !dev.astray
      ensures obls == old(obls) + CallObligations(t, Chunks(Delivered(requests, coalesce), coalesce))
      ensures r.inputs == old(r.inputs) && r.dests == old(r).Grant(t.ptr, t.size).dests
      ensures old(r).SpendsOnly(r, t.ptr, t.size)
      ensures TailUnwritten(t, Sizes(Chunks(Delivered(requests, coalesce), coalesce)), r)
      ensures dev.nextSerial >= old(dev.nextSerial)
    {
      GoodDelivered(requests, coalesce, r.inputs);
      assert |resp.live| == count;
      hide Idle, Gathering, GoodPieces, Within, CallObligations, Chunks, Delivered, Sizes, Waiting;
      hide Regions.Grant, KernelFits, SomeStreams, Unfit, Losses, AllIssued, Direct;
      OpenTensor(t);
      FillTensor(requests, t);
    }

    /** Gathers into a tensor that has been taken into account. */
    method FillTensor(requests: seq<Request>, t: Tensor)
      requires Gathering(t, 0, [], []) && |requests| > 0 && !Waiting() && kernelSize == 0 == kernelOffset
      requires GoodPieces(Delivered(requests, coalesce), r.inputs, count)
      modifies this, dev`mem, dev`stream, dev`issued, dev`astray, dev`refusals, dev`bufferReady, dev`nextSerial
      modifies dev`marked, resp
      ensures Idle()
      ensures Losses(old(resp.live), resp.live, old(dev.refusals), dev.refusals,
                     Unfit(Chunks(Delivered(requests, coalesce), coalesce), t))
      ensures needSync ==> old(needSync) || SomeStreams(Chunks(Delivered(requests, coalesce), coalesce), t)
      ensures !dev.refusals.any ==>
                needSync == (old(needSync) || SomeStreams(Chunks(Delivered(requests, coalesce), coalesce), t))
      ensures !pinnedEnabled ==> deferred == old(deferred)
      ensures Direct() ==>
                AllIssued(old(dev.issued), dev.issued, Chunks(Delivered(requests, coalesce), coalesce), t, resp.live)
      ensures !old(dev.astray) && KernelFits(Chunks(Delivered(requests, coalesce), coalesce), t, kernelThreshold) ==>
                !dev.astray
      ensures obls == old(obls) + CallObligations(t, Chunks(Delivered(requests, coalesce), coalesce))
      ensures r.inputs == old(r.inputs) && r.dests == old(r.dests) && dev.nextSerial >= old(dev.nextSerial)
      ensures TailUnwritten(t, Sizes(Chunks(Delivered(requests, coalesce), coalesce)), r)
      ensures old(r).SpendsOnly(r, t.ptr, t.size)
    {
      hide Idle, Gathering, GoodPieces, Within, PinnedWin, KernelWin, CallObligations, Chunks, Delivered, Sizes;
      hide OnTrack, KernelFits, SomeStreams, Unfit, Losses, AllIssued, Waiting, Direct;
      ghost var w, pinned, kernel;
      w, pinned, kernel := GatherChunks(requests, t);
      ghost var live, f := resp.live, dev.refusals;
      CloseTensor(t, w, pinned, kernel);
      if Direct() {
        OnlyLosses(live, resp.live, f, dev.refusals, iset{});
        StillIssued(old(dev.issued), dev.issued, w.done, t, live, resp.live);
      }
      LossesJoin(old(resp.live), live, resp.live, old(dev.refusals), f, dev.refusals, Unfit(w.done, t), iset{});
    }

    lemma {:induction false} TailLeft(t: Tensor, offset: nat)
      requires Gathering(t, offset, [], [])
      ensures TailUnwritten(t, offset, r)
    {
      WindowSpends(PinnedWin([]), KernelWin([]), t, offset, r, count);
    }

    lemma {:induction false} TripOver(w: Trip, t: Tensor)
      requires SyncKnown(w.done, t, w.before) && !Waiting()
      ensures needSync ==> w.before || SomeStreams(w.done, t)
      ensures !dev.refusals.any ==> needSync == (w.before || SomeStreams(w.done, t))
    {}

    /** Every owned region in use was allocated before. */
    ghost predicate OwnedKnown()
      reads this`r, dev`nextSerial
    {
      forall l | (l in r.inputs || l in r.dests) && l.space.Owned? :: l.space.ownedSerial < dev.nextSerial
    }

    /** The variant that looks for a place itself when the caller gives no buffer:
        the requests' own memory if the input lies there in one piece and in an
        allowed memory type, else a new region of the first allowed type there is
        room for. */
    method ProcessInput(requests: seq<Request>, buffer: Tensor,
                        allowed: seq<(MemoryType, int)>) returns (place: Placement)
      requires Idle() && OwnedKnown() && |requests| == count > 0
      requires !buffer.ptr.IsNull() ==>
                 forall l: Loc | In(l, buffer.ptr, buffer.size) :: l !in r.inputs && l !in r.dests && !l.space.Staging?
      requires !buffer.ptr.IsNull() ==> forall l: Loc | In(l, buffer.ptr, buffer.size) && l.space.Owned? ::
                                                 l.space.ownedSerial < dev.nextSerial
      requires forall p | p in Flatten(requests) :: Within(p.ptr, p.size, r.inputs)
      modifies this, dev, resp
      ensures Idle() && OwnedKnown() && dev.nextSerial >= old(dev.nextSerial) && r.inputs == old(r.inputs)
      ensures place.Gathered? && place.t.size > 0 ==>
                Losses(old(resp.live), resp.live, old(dev.refusals), dev.refusals,
                       Unfit(Chunks(Delivered(requests, coalesce), coalesce), place.t))
      ensures !(place.Gathered? && place.t.size > 0) ==> resp.live == old(resp.live) && dev.refusals == old(dev.refusals)
      ensures needSync ==> old(needSync) || SomeStreamTo(place, Chunks(Delivered(requests, coalesce), coalesce))
      ensures !dev.refusals.any ==>
                needSync == (old(needSync) || SomeStreamTo(place, Chunks(Delivered(requests, coalesce), coalesce)))
      ensures !pinnedEnabled ==> deferred == old(deferred)
      ensures Direct() && place.Gathered? && place.t.size > 0 ==>
                AllIssued(old(dev.issued), dev.issued, Chunks(Delivered(requests, coalesce), coalesce), place.t, resp.live)
      ensures !(place.Gathered? && place.t.size > 0) ==> dev.issued == old(dev.issued)
      ensures dev.waits == old(dev.waits)
      ensures !old(dev.astray) && FitsPlace(place, Chunks(Delivered(requests, coalesce), coalesce)) ==> !dev.astray
      ensures obls == old(obls) + (if place.Gathered? && place.t.size > 0
                                   then CallObligations(place.t, Chunks(Delivered(requests, coalesce), coalesce)) else [])
      ensures r.dests == if place.Gathered? && place.t.size > 0 then old(r).Grant(place.t.ptr, place.t.size).dests
                         else old(r.dests)
      ensures place.InPlace? ==>
                && buffer.ptr.IsNull() && place.t.size > 0
                && Found(Flatten(requests), coalesce, true, place.t.ptr, place.t.size)
                && (place.t.ptr.space.Type(), place.t.ptr.space.TypeId()) in allowed
      ensures place.Gathered? ==>
                if buffer.ptr.IsNull() then
                  && place.t.ptr.space.Owned? && old(dev.nextSerial) <= place.t.ptr.space.ownedSerial < dev.nextSerial
                  && place.t.size == SizeFound(Flatten(requests))
                  && IsAllowed(place.t, allowed, dev.denied - old(dev.denied))
                else place.t == buffer && |allowed| == 1
      ensures buffer.ptr.IsNull() && !place.InPlace? ==>
                forall p: Loc | !p.IsNull() && Found(Flatten(requests), coalesce, true, p, SizeFound(Flatten(requests))) ::
                  SizeFound(Flatten(requests)) == 0 || (p.space.Type(), p.space.TypeId()) !in allowed
      ensures place.Unplaced? && !buffer.ptr.IsNull() ==> |allowed| != 1
      ensures buffer.ptr.IsNull() && !place.InPlace? ==>
                (place.Unplaced? <==> dev.denied == old(dev.denied) + |allowed|)
    {
      hide Idle, KernelFits, SomeStreams, Unfit, Losses, AllIssued, Within, Delivered, CallObligations, IsAllowed, Flatten;
      var t := buffer;
      if buffer.ptr.IsNull() {
        if |allowed| == 0 {
          return Unplaced;
        }
        var contiguous, found, size := GetInputBufferIfContiguous(requests, coalesce);
        if contiguous && size != 0 && (found.space.Type(), found.space.TypeId()) in allowed {
          return InPlace(Tensor(found, size));
        }
        var ok;
        ok, t := AllocateAllowed(allowed, size);
        if !ok {
          return Unplaced;
        }
      } else if |allowed| != 1 {
        return Unplaced;
      }
      if t.size != 0 {
        ProcessTensor(requests, t);
      }
      return Gathered(t);
    }

    /** A chunk is gathered, into a tensor it fits, through the stream. */
    ghost predicate SomeStreamTo(place: Placement, cs: seq<Chunk>) {
      place.Gathered? && place.t.size > 0 && SomeStreams(cs, place.t)
    }

    /** Whatever kernel may be launched for the place fits its ints. */
    predicate FitsPlace(place: Placement, cs: seq<Chunk>) {
      place.Gathered? && place.t.size > 0 ==> KernelFits(cs, place.t, kernelThreshold)
    }

    /** The tensor is of the i-th allowed memory type. */
    predicate IsAllowed(t: Tensor, allowed: seq<(MemoryType, int)>, i: int) {
      0 <= i < |allowed| && (t.ptr.space.Type(), t.ptr.space.TypeId()) == allowed[i]
    }

    /** A new region of the first allowed memory type there is room for. */
    method AllocateAllowed(allowed: seq<(MemoryType, int)>, size: nat) returns (ok: bool, t: Tensor)
      requires Idle()
      modifies dev`nextSerial, dev`denied
      ensures Idle() && dev.nextSerial == old(dev.nextSerial) + (if ok then 1 else 0)
      ensures if ok then dev.denied < old(dev.denied) + |allowed| else dev.denied == old(dev.denied) + |allowed|
      ensures dev.denied >= old(dev.denied)
      ensures ok ==> IsAllowed(t, allowed, dev.denied - old(dev.denied))
      ensures ok ==> t == OwnedTensor(allowed[dev.denied - old(dev.denied)], old(dev.nextSerial), size)
    {
      hide View.Ok, View.Pending;
      var i := 0;
      ok, t := false, Tensor(Loc(Caller(Cpu, 0), 0), 0);
      while i < |allowed| && !ok
        invariant i <= |allowed| && Idle() && dev.nextSerial == old(dev.nextSerial) + (if ok then 1 else 0)
        invariant dev.denied == old(dev.denied) + i - (if ok then 1 else 0)
        invariant ok ==> i > 0 && t == OwnedTensor(allowed[i - 1], old(dev.nextSerial), size)
        decreases |allowed| - i, !ok
      {
        var p;
        ok, p := dev.AllocateOwned(allowed[i].0, allowed[i].1);
        t := Tensor(p, size);
        i := i + 1;
      }
    }

    /** The backend gives up on the whole batch between two calls. */
    method RespondAll()
      requires Idle() && count > 0
      modifies resp
      ensures Idle() && AllNull(resp.live, 0, count - 1) && OnlyNulled(old(resp.live), resp.live)
    {
      hide View.Ok, View.Pending;
      ghost var v := Now();
      resp.FailRange(0, count - 1, |dev.issued|);
      LiveDrops(v, Now(), orig, obls, inUse, []);
    }

    /** Performs the i-th deferred copy. */
    method FinalizeDeferred(i: nat, ghost rest: seq<DeferredPinned>) returns (cudaUsed: bool, ghost how: Outcome)
      requires i < |deferred| && resp.Valid() && dev.bufferReady
      requires forall b | b in deferred[i].requests :: Named(b, |resp.live|)
      requires IndependentOfAll(deferred[i].copy, dev.stream)
      modifies dev`mem, dev`stream, dev`issued, dev`refusals, resp
      ensures resp.Valid() && Losses(old(resp.live), resp.live, old(dev.refusals), dev.refusals, iset{})
      ensures DeferredDone(View(old(dev.mem), old(dev.stream), [deferred[i]] + rest, old(resp.live), r),
                           View(dev.mem, dev.stream, rest, resp.live, r), deferred[i], how)
      ensures cudaUsed == how.OnStream? && (cudaUsed ==> dev.UsesStream(deferred[i].copy, false))
      ensures dev.refusals == if how.Refused? then old(dev.refusals).Add(ResponsesOf(deferred[i].requests))
                              else old(dev.refusals)
      ensures !how.Refused? && dev.UsesStream(deferred[i].copy, false) ==> cudaUsed
    {
      var d := deferred[i];
      var ok;
      ok, cudaUsed := dev.CopyBuffer(d.copy, false, ResponsesOf(d.requests));
      how := if !ok then Refused else if cudaUsed then OnStream else AtOnce;
      if !ok {
        FailRequests(d.requests);
      }
    }

    /** One of the first n deferred copies goes to the device. */
    predicate DeferredStreams(n: nat)
      reads this`deferred
      requires n <= |deferred|
    {
      exists i | 0 <= i < n :: dev.UsesStream(deferred[i].copy, false)
    }

    /** The view in which only the deferred copies from the i-th on are left. */
    ghost function Left(i: nat): View
      reads this`deferred, this`r, dev`mem, dev`stream, resp`live
      requires i <= |deferred|
    {
      Now().(deferred := deferred[i..])
    }

    /** Waits for everything on the stream, if a deferred copy needs it. */
    method SynchronizeForDeferred()
      requires Idle()
      modifies dev`mem, dev`stream, dev`waits, dev`marked, dev`bufferReady, this`needSync, this`readyEvent
      ensures Base(inUse) && Pending([]) && (needSync ==> dev.gpuEnabled) && dev.bufferReady
      ensures deferred != [] ==> dev.stream == [] && !needSync
      ensures dev.stream != [] ==> needSync
      ensures deferred == [] && needSync && useEvent ==> dev.marked == |dev.stream|
      ensures deferred == [] ==> needSync == old(needSync) && dev.mem == old(dev.mem) && dev.waits == old(dev.waits)
    {
      ghost var v := Now();
      hide View.Ok, View.Pending;
      if dev.gpuEnabled && deferred != [] && needSync {
        if useEvent {
          assert dev.stream[..|dev.stream|] == dev.stream;
          dev.SynchronizeEvent();
        } else {
          dev.SynchronizeStream();
        }
        needSync := false;
        Synchronized(v, Now(), orig, obls, inUse, []);
      }
      if readyEvent {
        dev.AwaitBuffer();
        readyEvent := false;
      }
    }

    /** Finishes all gathers: performs the deferred copies.  When it returns false
        nothing is outstanding; when it returns true, every obligation is met as
        soon as the stream (or the event) has been waited for.  With nothing deferred
        it asks for a wait exactly if one was needed before; else exactly if a
        deferred copy goes to the device, unless copies are refused. */
    method Finalize() returns (sync: bool)
      requires Idle()
      modifies dev`mem, dev`stream, dev`issued, dev`waits, dev`refusals, dev`marked, dev`bufferReady, resp
      modifies this`needSync, this`readyEvent
      ensures resp.Valid() && Losses(old(resp.live), resp.live, old(dev.refusals), dev.refusals, iset{})
      ensures forall ob | ob in obls :: Settled(ob, dev.Settled(), orig, resp.live)
      ensures Untouched(dev.Settled(), orig, r)
      ensures (!sync ==> dev.stream == []) && (sync ==> dev.gpuEnabled) && dev.bufferReady
      ensures sync && useEvent ==> dev.marked == |dev.stream|
      ensures deferred == [] ==> sync == old(needSync) && dev.mem == old(dev.mem)
      ensures deferred == [] ==> dev.issued == old(dev.issued) && dev.waits == old(dev.waits)
      ensures deferred != [] && sync ==> DeferredStreams(|deferred|)
      ensures deferred != [] && !dev.refusals.any ==> sync == DeferredStreams(|deferred|)
    {
      hide Base, Pending, View.Ok, View.Pending, Left, Idle, Settled, Untouched, DeferredStreams, Losses, Drain;
      SynchronizeForDeferred();
      FinalizeAll();
      NothingLeft();
      AllSettled(Left(|deferred|), orig, obls, inUse);
      if dev.gpuEnabled && deferred != [] && needSync && useEvent {
        dev.RecordEvent();
      }
      return needSync;
    }

    lemma {:induction false} NothingLeft()
      ensures Left(|deferred|) == View(dev.mem, dev.stream, [], resp.live, r)
    {}

    /** Performs the deferred copies in order. */
    method FinalizeAll()
      requires Base(inUse) && Pending([]) && (needSync ==> dev.gpuEnabled) && dev.bufferReady
      requires deferred != [] ==> dev.stream == []
      requires dev.stream != [] ==> needSync
      modifies dev`mem, dev`stream, dev`issued, dev`refusals, resp, this`needSync
      ensures resp.Valid() && Losses(old(resp.live), resp.live, old(dev.refusals), dev.refusals, iset{})
      ensures Left(|deferred|).Ok(orig, obls, inUse) && Left(|deferred|).Pending(orig, obls, [])
      ensures (dev.stream != [] ==> needSync) && (needSync ==> dev.gpuEnabled)
      ensures deferred == [] ==> needSync == old(needSync) && dev.stream == old(dev.stream) && dev.mem == old(dev.mem)
      ensures deferred == [] ==> dev.issued == old(dev.issued)
      ensures needSync ==> old(needSync) || DeferredStreams(|deferred|)
      ensures !dev.refusals.any ==> needSync == (old(needSync) || DeferredStreams(|deferred|))
    {
      hide View.Ok, View.Pending, Independent, Losses;
      NoLosses(resp.live, dev.refusals);
      var i := 0;
      assert deferred[0..] == deferred;
      assert Left(0) == Now();
      while i < |deferred|
        invariant i <= |deferred| && resp.Valid() && |resp.live| == count
        invariant Losses(old(resp.live), resp.live, old(dev.refusals), dev.refusals, iset{})
        invariant Left(i).Ok(orig, obls, inUse) && Left(i).Pending(orig, obls, [])
        invariant forall j | i <= j < |deferred| :: IndependentOfAll(deferred[j].copy, dev.stream)
        invariant (dev.stream != [] ==> needSync) && (needSync ==> dev.gpuEnabled)
        invariant deferred == [] ==> needSync == old(needSync) && dev.stream == old(dev.stream) && dev.mem == old(dev.mem)
        invariant deferred == [] ==> dev.issued == old(dev.issued)
        invariant needSync ==> old(needSync) || DeferredStreams(i)
        invariant !dev.refusals.any ==> needSync == (old(needSync) || DeferredStreams(i))
      {
        ghost var live, f := resp.live, dev.refusals;
        FinalizeOne(i);
        LossesJoin(old(resp.live), live, resp.live, old(dev.refusals), f, dev.refusals, iset{}, iset{});
        i := i + 1;
      }
    }

    /** Performs the i-th deferred copy, or fails the responses that wait for it. */
    method FinalizeOne(i: nat)
      requires i < |deferred| && resp.Valid() && |resp.live| == count && dev.bufferReady
      requires Left(i).Ok(orig, obls, inUse) && Left(i).Pending(orig, obls, [])
      requires forall j | i <= j < |deferred| :: IndependentOfAll(deferred[j].copy, dev.stream)
      requires (dev.stream != [] ==> needSync) && (needSync ==> dev.gpuEnabled)
      modifies dev`mem, dev`stream, dev`issued, dev`refusals, resp, this`needSync
      ensures resp.Valid() && Losses(old(resp.live), resp.live, old(dev.refusals), dev.refusals, iset{})
      ensures Left(i + 1).Ok(orig, obls, inUse) && Left(i + 1).Pending(orig, obls, [])
      ensures forall j | i < j < |deferred| :: IndependentOfAll(deferred[j].copy, dev.stream)
      ensures (dev.stream != [] ==> needSync) && (needSync ==> dev.gpuEnabled)
      ensures needSync ==> old(needSync) || dev.UsesStream(deferred[i].copy, false)
      ensures !dev.refusals.any ==> needSync == (old(needSync) || dev.UsesStream(deferred[i].copy, false))
    {
      hide View.Ok, View.Pending, Independent, DeferredDone;
      ghost var v, rest := Left(i), deferred[i + 1..];
      NextDeferred(v, deferred, i, orig, obls, inUse);
      ghost var how;
      var cudaUsed;
      cudaUsed, how := FinalizeDeferred(i, rest);
      needSync := needSync || cudaUsed;
      DeferredStep(v, Left(i + 1), orig, obls, inUse, deferred[i], how);
    }
  }
}

/** The host's view of the device: memory, one stream of outstanding copies,
    an event on that stream, and the allocator. */
module Devices {
  import opened DeviceMemory
  import opened Responses
  import opened InputIteration
  import opened InputBytes
  import opened GatherViews
  import opened GatherKernel
  import Schedules

  function ByStreamAll(copies: seq<Copy>): (ops: seq<Issue>)
    ensures |ops| == |copies| && forall i | 0 <= i < |ops| :: ops[i] == ByStream(copies[i])
  {
    seq(|copies|, i requires 0 <= i < |copies| => ByStream(copies[i]))
  }

  predicate TakesNull(c: Copy) {
    c.n > 0 && (c.src.IsNull() || c.dst.IsNull())
  }

  predicate OnDevice(c: Copy) {
    c.src.space.Type() == Gpu || c.dst.space.Type() == Gpu
  }

  /** What can come of a copy: it is refused for a null pointer, or by the device; and it
      succeeds without a null pointer, if it takes the device only with GPU support. */
  predicate MayEnd(gpu: bool, c: Copy, ok: bool) {
    if ok then !TakesNull(c) && (OnDevice(c) ==> gpu) else TakesNull(c) || OnDevice(c)
  }

  class Device {
    /** Whether the library was built with GPU support. */
    const gpuEnabled: bool
    /** Memory as it would be if no outstanding copy had started. */
    ghost var mem: Memory
    /** Copies issued on the stream and not known to have finished, oldest first. */
    var stream: seq<Copy>
    /** How many of the outstanding copies the last recorded event covers. */
    var marked: nat
    /** Whether the caller's tensor buffer may be written. */
    var bufferReady: bool
    /** All copies the host has issued, in order, and how often it has waited for the stream. */
    ghost var issued: seq<Issue>
    ghost var waits: nat
    /** Every refusal so far, and the responses it was for. */
    ghost var refusals: Refusals
    /** How often there was no room for a tensor. */
    ghost var denied: nat
    /** A kernel was launched on blocks that do not fit its ints.  From then on memory, the
        stream and what has been issued tell what was asked for, not what comes of it. */
    ghost var astray: bool
    /** The serial number of the next allocated region. */
    var nextSerial: nat

    constructor (gpuEnabled: bool, ghost mem: Memory, bufferReady: bool)
      ensures this.gpuEnabled == gpuEnabled && this.mem == mem && this.bufferReady == bufferReady
      ensures stream == [] && marked == 0 && nextSerial == 0 && refusals == Refusals(false, iset{})
      ensures issued == [] && waits == 0 == denied && !astray
    {
      this.gpuEnabled := gpuEnabled;
      this.mem := mem;
      this.bufferReady := bufferReady;
      stream, marked, nextSerial, refusals := [], 0, 0, Refusals(false, iset{});
      issued, waits, denied, astray := [], 0, 0, false;
    }

    /** What memory holds once the stream has run dry. */
    ghost function Settled(): Memory
      reads this
    {
      Drain(mem, stream)
    }

    predicate UsesStream(c: Copy, onStream: bool) {
      gpuEnabled && (onStream || c.src.space.Type() == Gpu || c.dst.space.Type() == Gpu)
    }

    /** Copies c, at once or on the stream, or fails and does nothing.  The
        caller must show that no outstanding copy conflicts with c and that a
        tensor buffer is not written before it is ready, and names the responses
        the copy is for.  A copy that is not refused is the host's next step in what
        has been issued. */
    method CopyBuffer(c: Copy, onStream: bool, ghost rs: iset<nat>) returns (ok: bool, cudaUsed: bool)
      requires IndependentOfAll(c, stream)
      requires c.dst.space.Staging? || bufferReady
      modifies this`mem, this`stream, this`refusals, this`issued
      ensures issued == old(issued) + if ok then [if cudaUsed then ByStream(c) else ByHost(c)] else []
      ensures ok ==> Schedules.Next(issued, Schedules.State(old(mem), old(stream), |old(issued)|), Schedules.Host,
                                    Schedules.State(mem, stream, |issued|))
      ensures refusals == if ok then old(refusals) else old(refusals).Add(rs)
      ensures !ok ==> !cudaUsed && mem == old(mem) && stream == old(stream)
      ensures ok && !cudaUsed ==> mem == Apply(old(mem), c) && stream == old(stream)
      ensures ok && cudaUsed ==> mem == old(mem) && stream == old(stream) + [c]
      ensures ok ==> cudaUsed == UsesStream(c, onStream)
      ensures ok ==> (cudaUsed <==> gpuEnabled && (onStream || c.src.space.Type() == Gpu || c.dst.space.Type() == Gpu))
      ensures MayEnd(gpuEnabled, c, ok)
      ensures c.n > 0 && (c.src.IsNull() || c.dst.IsNull()) ==> !ok
      ensures c.src.space.Type() != Gpu && c.dst.space.Type() != Gpu
              ==> ok == !(c.n > 0 && (c.src.IsNull() || c.dst.IsNull()))
    {
      cudaUsed := false;
      if c.n > 0 && (c.src.IsNull() || c.dst.IsNull()) {
        refusals := refusals.Add(rs);
        return false, false;
      }
      if c.src.space.Type() != Gpu && c.dst.space.Type() != Gpu {
        if gpuEnabled && onStream {
          stream, issued := stream + [c], issued + [ByStream(c)];
          cudaUsed := true;
        } else {
          mem, issued := Apply(mem, c), issued + [ByHost(c)];
        }
      } else {
        // The CUDA runtime may refuse the copy; without GPU support it must fail.
        var failed: bool := *;
        if !gpuEnabled || failed {
          refusals := refusals.Add(rs);
          return false, false;
        }
        stream, issued := stream + [c], issued + [ByStream(c)];
        cudaUsed := true;
      }
      ok := true;
    }

    /** Launches one gather kernel for the buffers, with the table of their offsets.
        The queue then holds one copy per block: by the last clause that is what all
        schedules of the kernel come to, if every block fits its ints.  If not, nothing
        is known about memory any more. */
    method LaunchGather(bufs: seq<Chunk>, offsets: seq<nat>, t: Tensor, base: nat) returns (ok: bool)
      requires |offsets| == |bufs| && forall j | 0 <= j < |bufs| :: offsets[j] == Sizes(bufs[..j])
      requires Launch(bufs, t.ptr.Plus(base)).Disjoint()
      requires forall c | c in KernelCopies(bufs, t, base) :: IndependentOfAll(c, stream)
      requires bufferReady
      modifies this`stream, this`issued, this`astray
      ensures ok ==> gpuEnabled && stream == old(stream) + KernelCopies(bufs, t, base)
      ensures !ok ==> stream == old(stream)
      ensures issued == old(issued) + if ok then ByStreamAll(KernelCopies(bufs, t, base)) else []
      ensures astray <==> old(astray) || (ok && !Launch(bufs, t.ptr.Plus(base)).Fits())
      ensures ok && Launch(bufs, t.ptr.Plus(base)).Fits() ==>
                EveryRunGives(Launch(bufs, t.ptr.Plus(base)), old(Settled()), Settled())
    {
      var failed: bool := *;
      ok := gpuEnabled && !failed;
      if ok {
        var copies := KernelArguments(bufs, offsets, t, base);
        if Launch(bufs, t.ptr.Plus(base)).Fits() {
          AllRunsGive(Launch(bufs, t.ptr.Plus(base)), t, base, Settled());
        } else {
          astray := true;
        }
        DrainConcat(mem, stream, copies);
        stream, issued := stream + copies, issued + ByStreamAll(copies);
      }
    }

    method RecordEvent()
      modifies this`marked
      ensures marked == |stream|
    {
      marked := |stream|;
    }

    /** Waits for the event: the copies it covers have run. */
    method SynchronizeEvent()
      requires marked <= |stream|
      modifies this`mem, this`stream, this`marked, this`waits
      ensures waits == old(waits) + 1
      ensures mem == Drain(old(mem), old(stream)[..old(marked)])
      ensures stream == old(stream)[old(marked)..] && marked == 0
      ensures Settled() == old(Settled())
    {
      DrainConcat(mem, stream[..marked], stream[marked..]);
      assert stream == stream[..marked] + stream[marked..];
      mem := Drain(mem, stream[..marked]);
      stream, waits := stream[marked..], waits + 1;
      marked := 0;
    }

    method SynchronizeStream()
      modifies this`mem, this`stream, this`marked, this`waits
      ensures mem == old(Settled()) && stream == [] && marked == 0 && waits == old(waits) + 1
    {
      mem := Drain(mem, stream);
      stream, waits := [], waits + 1;
      marked := 0;
    }

    /** Waits until the caller's buffer is ready. */
    method AwaitBuffer()
      modifies this`bufferReady
      ensures bufferReady
    {
      bufferReady := true;
    }

    /** A pinned region for staging, if there is room for one. */
    method AllocateStaging() returns (ok: bool, serial: nat)
      modifies this`nextSerial
      ensures nextSerial == old(nextSerial) + (if ok then 1 else 0)
      ensures ok ==> serial == old(nextSerial)
    {
      serial := nextSerial;
      var full: bool := *;
      ok := !full;
      if ok {
        nextSerial := nextSerial + 1;
      }
    }

    /** A region of the given type that will hold a tensor, if there is room. */
    method AllocateOwned(memoryType: MemoryType, id: int) returns (ok: bool, p: Loc)
      modifies this`nextSerial, this`denied
      ensures nextSerial == old(nextSerial) + (if ok then 1 else 0)
      ensures ok ==> p == Loc(Owned(memoryType, id, old(nextSerial), Backend), 0)
      ensures denied == old(denied) + if ok then 0 else 1
    {
      p := Loc(Owned(memoryType, id, nextSerial, Backend), 0);
      var full: bool := *;
      ok := !full;
      if ok {
        nextSerial := nextSerial + 1;
      } else {
        denied := denied + 1;
      }
    }

    /** Any call into the server that can only succeed or be refused, on behalf of
        some responses. */
    method AskServer(ghost rs: iset<nat>) returns (ok: bool)
      modifies this`refusals
      ensures refusals == if ok then old(refusals) else old(refusals).Add(rs)
    {
      ok := *;
      if !ok {
        refusals := refusals.Add(rs);
      }
    }

    /** A buffer for a response, in whatever memory the server prefers. */
    method AllocateOutput(response: nat) returns (ok: bool, p: Loc)
      modifies this`nextSerial, this`refusals
      ensures refusals == if ok then old(refusals) else old(refusals).Add(Range(response, response))
      ensures nextSerial == old(nextSerial) + (if ok then 1 else 0)
      ensures ok ==> p.space.IsFor(response) && p.addr == 0 && p.space.ownedSerial == old(nextSerial)
    {
      var memoryType: MemoryType := *;
      var id: int := *;
      p := Loc(Owned(memoryType, id, nextSerial, Response(response)), 0);
      var refused: bool := *;
      ok := !refused;
      if ok {
        nextSerial := nextSerial + 1;
      } else {
        refusals := refusals.Add(Range(response, response));
      }
    }

    /** Goes on without waiting for the stream: from here on it depends on the schedule
        what memory holds, which what has been issued still tells. */
    method LoseTrack()
      modifies this`mem, this`stream, this`marked
      ensures stream == []
    {
      mem := *;
      stream, marked := [], 0;
    }
  }
}

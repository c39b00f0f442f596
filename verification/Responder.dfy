/** The output responder: cuts a model's output tensor into the responses of the
    batch, through the same kind of staging the collector uses. */
module Responders {
  import opened Arithmetic
  import opened DeviceMemory
  import opened Devices
  import opened Responses
  import opened Delivery
  import opened InputIteration
  import opened InputBytes
  import opened GatherViews
  import opened LateCopies
  import opened ScatterViews
  import opened Shapes

  /** What the responder asks of a request: the shape of an input, and the names
      of the outputs it wants. */
  datatype RequestInfo = RequestInfo(shape: Shape, outputs: seq<string>)

  /** The buffer a response was given for an output. */
  datatype Slot = NoBuffer | Held(p: Loc)

  function SumTo(sizes: seq<nat>, i: nat): nat
    requires i <= |sizes|
  {
    if i == 0 then 0 else SumTo(sizes, i - 1) + sizes[i - 1]
  }

  /** One tensor to be cut into slices of the given sizes, for those who want one. */
  datatype Cut = Cut(t: Loc, sizes: seq<nat>, wants: seq<bool>) {
    predicate Valid(count: nat) { |sizes| == |wants| == count }

    function SliceAt(i: nat): Loc
      requires i <= |sizes|
    {
      t.Plus(SumTo(sizes, i))
    }

    /** Response i, unless it has failed or wants nothing, has a buffer that is to
        receive its slice of the tensor. */
    ghost predicate Answered(i: nat, slots: seq<Slot>, live: seq<bool>, obls: seq<Obligation>)
      requires i < |slots| && i < |sizes| && i < |wants| && i < |live|
    {
      live[i] && wants[i] ==>
        slots[i].Held? && Obligation(Copy(SliceAt(i), slots[i].p, sizes[i]), i, i) in obls
    }
  }

  ghost predicate InSlots(l: Loc, cut: Cut, slots: seq<Slot>) {
    exists k | 0 <= k < |slots| && k < |cut.sizes| :: slots[k].Held? && In(l, slots[k].p, cut.sizes[k])
  }

  /** The first |slots| responses have been dealt with: who wants a slice has a
      buffer of its own for it, nobody else has one, and destinations are what
      they were before plus these buffers. */
  ghost predicate Answering(cut: Cut, slots: seq<Slot>, live: seq<bool>, obls: seq<Obligation>, dests0: iset<Loc>,
                            dests: iset<Loc>, lo: nat, hi: nat) {
    && |slots| <= |live| == |cut.sizes| == |cut.wants|
    && (forall k | 0 <= k < |slots| :: cut.Answered(k, slots, live, obls))
    && (forall k | 0 <= k < |slots| && slots[k].Held? ::
          cut.wants[k] && slots[k].p.space.IsFor(k) && lo <= slots[k].p.space.ownedSerial < hi)
    && (forall j, k | 0 <= j < k < |slots| && slots[j].Held? && slots[k].Held? :: slots[j].p.space != slots[k].p.space)
    && (forall l | l in dests :: l in dests0 || InSlots(l, cut, slots))
  }

  /** Some response is left. */
  predicate AnyLive(live: seq<bool>) {
    exists i | 0 <= i < |live| :: live[i]
  }

  /** How far a cut has got: the buffers given so far, what is recorded for
      staging, where destinations and serials stood when it began, whether there was
      something to wait for then, and what had been issued. */
  datatype Tally = Tally(cut: Cut, slots: seq<Slot>, obs: seq<Obligation>, dests0: iset<Loc>, lo: nat, before: bool,
                         ops: seq<Issue>)

  /** A copy between the two locations takes the device. */
  predicate TakesDevice(p: Loc, t: Loc) {
    p.space.Type() == Gpu || t.space.Type() == Gpu
  }

  ghost predicate AllTakeDevice(outs: seq<Chunk>, t: Loc) {
    forall o | o in outs :: TakesDevice(o.ptr, t)
  }

  /** The outputs are for different responses before the n-th, in order, and these are
      all left. */
  ghost predicate InOrder(outs: seq<Chunk>, live: seq<bool>, n: nat) {
    && (forall k | 0 <= k < |outs| :: outs[k].first < n && outs[k].first < |live| && live[outs[k].first])
    && forall j, k | 0 <= j < k < |outs| :: outs[j].first < outs[k].first
  }

  /** Only response i may have changed. */
  ghost predicate OnlyOne(live0: seq<bool>, live1: seq<bool>, i: nat) {
    |live0| == |live1| && forall k | 0 <= k < |live0| && k != i :: live1[k] == live0[k]
  }

  lemma {:induction false} InOrderTail(outs: seq<Chunk>, live0: seq<bool>, live1: seq<bool>, n: nat)
    requires outs != [] && InOrder(outs, live0, n) && OnlyOne(live0, live1, outs[0].first)
    ensures InOrder(outs[1..], live1, n)
  {}

  lemma {:induction false} SameOne(live: seq<bool>, i: nat)
    ensures OnlyOne(live, live, i)
  {}

  lemma {:induction false} NothingRecorded(live: seq<bool>, n: nat)
    ensures InOrder([], live, n)
  {}

  lemma {:induction false} InOrderUpTo(outs: seq<Chunk>, live: seq<bool>, n: nat, m: nat)
    requires InOrder(outs, live, n) && n <= m
    ensures InOrder(outs, live, m)
  {}

  lemma {:induction false} InOrderNext(outs: seq<Chunk>, live0: seq<bool>, live1: seq<bool>, n: nat, out: Chunk)
    requires InOrder(outs, live0, n) && OnlyOne(live0, live1, n)
    ensures InOrder(outs, live1, n) && InOrder(outs, live1, n + 1)
    ensures out.first == n < |live1| && live1[n] ==> InOrder(outs + [out], live1, n + 1)
  {}

  lemma {:induction false} TakeDeviceParts(outs: seq<Chunk>, out: Chunk, t: Loc)
    ensures AllTakeDevice([], t)
    ensures AllTakeDevice(outs + [out], t) <==> AllTakeDevice(outs, t) && TakesDevice(out.ptr, t)
    ensures outs != [] && AllTakeDevice(outs, t) ==> AllTakeDevice(outs[1..], t) && TakesDevice(outs[0].ptr, t)
  {
    assert forall o | o in outs :: o in outs + [out];
    assert out in outs + [out];
  }

  lemma {:induction false} StillAnswering(cut: Cut, slots: seq<Slot>, live0: seq<bool>, live1: seq<bool>,
                                          obls0: seq<Obligation>,
                                          obls1: seq<Obligation>, dests0: iset<Loc>, dests: iset<Loc>, lo: nat,
                                          hi0: nat, hi1: nat)
    requires Answering(cut, slots, live0, obls0, dests0, dests, lo, hi0) && OnlyNulled(live0, live1) && hi0 <= hi1
    requires forall ob | ob in obls0 :: ob in obls1
    ensures Answering(cut, slots, live1, obls1, dests0, dests, lo, hi1)
  {
    forall k | 0 <= k < |slots|
      ensures cut.Answered(k, slots, live1, obls1)
    {
      assert cut.Answered(k, slots, live0, obls0);
    }
  }

  /** One more response. */
  lemma {:induction false} AnswerNext(cut: Cut, slots: seq<Slot>, slot: Slot, live0: seq<bool>, live1: seq<bool>,
                                      obls0: seq<Obligation>, obls1: seq<Obligation>, dests0: iset<Loc>,
                                      r0: Regions, r1: Regions,
                                      lo: nat, hi0: nat, hi1: nat)
    requires Answering(cut, slots, live0, obls0, dests0, r0.dests, lo, hi0) && OnlyNulled(live0, live1)
    requires |slots| < |live0| && lo <= hi0 <= hi1
    requires var i := |slots|;
             && obls1 == obls0 + (if slot.Held? then [Obligation(Copy(cut.SliceAt(i), slot.p, cut.sizes[i]), i, i)] else [])
             && (live1[i] && cut.wants[i] ==> slot.Held?)
             && (slot.Held? ==> cut.wants[i] && slot.p.space.IsFor(i) && hi0 <= slot.p.space.ownedSerial < hi1)
             && r1.dests == if slot.Held? then r0.Grant(slot.p, cut.sizes[i]).dests else r0.dests
    ensures Answering(cut, slots + [slot], live1, obls1, dests0, r1.dests, lo, hi1)
  {
    var i, slots' := |slots|, slots + [slot];
    forall k | 0 <= k < |slots'|
      ensures cut.Answered(k, slots', live1, obls1)
    {
      if k < i {
        assert cut.Answered(k, slots, live0, obls0);
      }
    }
    forall l | l in r1.dests
      ensures l in dests0 || InSlots(l, cut, slots')
    {
      if l in r0.dests && l !in dests0 {
        var k :| 0 <= k < |slots| && slots[k].Held? && In(l, slots[k].p, cut.sizes[k]);
        assert slots'[k] == slots[k];
      } else if l !in dests0 {
        assert slots'[i] == slot;
      }
    }
  }

  /** states names requests among the first n, each once and in order, and all
      those whose response is left. */
  predicate Created(states: seq<nat>, live: seq<bool>, n: nat) {
    && (forall j | 0 <= j < |states| :: states[j] < n)
    && (forall j, k | 0 <= j < k < |states| :: states[j] < states[k])
    && n <= |live| && forall k | 0 <= k < n && live[k] :: k in states
  }

  lemma {:induction false} CreatedNext(states: seq<nat>, live0: seq<bool>, live1: seq<bool>, n: nat, created: bool)
    requires Created(states, live0, n) && OnlyNulled(live0, live1) && n < |live1| && (live1[n] ==> created)
    ensures Created(if created then states + [n] else states, live1, n + 1)
  {}

  lemma {:induction false} NoneCreated(live: seq<bool>)
    ensures Created([], live, 0)
  {}

  lemma {:induction false} StillCreated(states: seq<nat>, live0: seq<bool>, live1: seq<bool>, n: nat)
    requires Created(states, live0, n) && OnlyNulled(live0, live1)
    ensures Created(states, live1, n)
  {}

  function AllWanting(n: nat): (wants: seq<bool>)
    ensures |wants| == n && forall i | 0 <= i < n :: wants[i]
  {
    seq(n, _ => true)
  }

  // ---------------------------------------------------------------------------
  // How a tensor is cut
  // ---------------------------------------------------------------------------

  /** How many rows the first n requests have. */
  function RowsOf(requests: seq<RequestInfo>, n: nat): int
    requires n <= |requests| && forall i | 0 <= i < |requests| :: requests[i].shape != []
  {
    if n == 0 then 0 else RowsOf(requests, n - 1) + requests[n - 1].shape[0]
  }

  /** The shapes are known, except that the batch size itself may not be. */
  predicate Splittable(requests: seq<RequestInfo>, typeSize: nat, batchn: Shape, firstDim: bool) {
    && typeSize > 0 && batchn != [] && Fixed(batchn[1..])
    && (firstDim ==> batchn[0] >= WILDCARD_DIM)
    && (firstDim ==> forall i | 0 <= i < |requests| :: requests[i].shape != [] && requests[i].shape[0] >= 0)
    && (!firstDim ==> batchn[0] >= 0)
  }

  /** The shape of one response's slice: that of the tensor, but with the rows of the
      request when the first dimension is the batch. */
  function ShapeFor(request: RequestInfo, batchn: Shape, firstDim: bool): (shape: Shape)
    requires batchn != [] && (firstDim ==> request.shape != [])
    ensures |shape| == |batchn| && shape[1..] == batchn[1..]
    ensures shape[0] == if firstDim then request.shape[0] else batchn[0]
  {
    if firstDim then [request.shape[0]] + batchn[1..] else batchn
  }

  /** The bytes that go to one response. */
  function SizeFor(request: RequestInfo, typeSize: nat, batchn: Shape, firstDim: bool): (size: nat)
    requires Splittable([request], typeSize, batchn, firstDim)
    ensures size == GetByteSize(typeSize, ShapeFor(request, batchn, firstDim))
    ensures size == (if firstDim then request.shape[0] else batchn[0]) * RowSize(typeSize, batchn[1..])
  {
    assert [request][0] == request;
    var shape := ShapeFor(request, batchn, firstDim);
    assert shape == [shape[0]] + batchn[1..];
    BatchSize(typeSize, shape[0], batchn[1..]);
    GetByteSize(typeSize, shape)
  }

  /** The bytes that go to each response: its rows, or the whole tensor's own size. */
  function SizesFor(requests: seq<RequestInfo>, typeSize: nat, batchn: Shape, firstDim: bool): (sizes: seq<nat>)
    requires Splittable(requests, typeSize, batchn, firstDim)
    ensures |sizes| == |requests|
    ensures forall i | 0 <= i < |requests| :: sizes[i] == GetByteSize(typeSize, ShapeFor(requests[i], batchn, firstDim))
  {
    seq(|requests|, i requires 0 <= i < |requests| =>
      SizeFor(requests[i], typeSize, batchn, firstDim))
  }

  /** Without batching the tensor is not cut: every response gets as many bytes as the
      tensor's own shape says, from behind those of the responses before it. */
  lemma {:induction false} CopiesSize(requests: seq<RequestInfo>, typeSize: nat, batchn: Shape, n: nat)
    requires Splittable(requests, typeSize, batchn, false) && n <= |requests|
    ensures Fixed(batchn)
    ensures SumTo(SizesFor(requests, typeSize, batchn, false), n) == n * RowSize(typeSize, batchn)
  {
    assert batchn == [batchn[0]] + batchn[1..];
    hide RowSize, GetByteSize;
    ProductConcat([batchn[0]], batchn[1..]);
    if n > 0 {
      CopiesSize(requests, typeSize, batchn, n - 1);
      MulAdd(n - 1, 1, RowSize(typeSize, batchn));
    }
  }

  function Wanting(requests: seq<RequestInfo>, name: string): (wants: seq<bool>)
    ensures |wants| == |requests| && forall i | 0 <= i < |requests| :: wants[i] == (name in requests[i].outputs)
  {
    seq(|requests|, i requires 0 <= i < |requests| => name in requests[i].outputs)
  }

  /** The slices of the first n responses make up the rows of their requests. */
  lemma {:induction false} RowsSize(requests: seq<RequestInfo>, typeSize: nat, batchn: Shape, n: nat)
    requires Splittable(requests, typeSize, batchn, true) && n <= |requests|
    ensures RowsOf(requests, n) >= 0
    ensures SumTo(SizesFor(requests, typeSize, batchn, true), n) == RowsOf(requests, n) * RowSize(typeSize, batchn[1..])
  {
    hide RowSize, Fixed, GetByteSize;
    if n > 0 {
      RowsSize(requests, typeSize, batchn, n - 1);
      BatchSize(typeSize, requests[n - 1].shape[0], batchn[1..]);
      MulAdd(RowsOf(requests, n - 1), requests[n - 1].shape[0], RowSize(typeSize, batchn[1..]));
    }
  }

  /** How many bytes the tensor must have: those of its own shape when its batch
      size is known and checked, else all that will be cut from it. */
  function TensorSize(requests: seq<RequestInfo>, typeSize: nat, batchn: Shape, firstDim: bool): nat
    requires Splittable(requests, typeSize, batchn, firstDim)
  {
    if firstDim && batchn[0] != WILDCARD_DIM then
      GetByteSize(typeSize, [batchn[0]] + batchn[1..])
    else SumTo(SizesFor(requests, typeSize, batchn, firstDim), |requests|)
  }

  /** That is: the rows of the batch, or those of all requests if it is open; without
      batching one tensor of its own shape for each request. */
  lemma {:induction false} TensorBytes(requests: seq<RequestInfo>, typeSize: nat, batchn: Shape, firstDim: bool)
    requires Splittable(requests, typeSize, batchn, firstDim)
    ensures firstDim ==> TensorSize(requests, typeSize, batchn, firstDim)
                         == (if batchn[0] == -1 then RowsOf(requests, |requests|) else batchn[0]) * RowSize(typeSize, batchn[1..])
    ensures !firstDim ==> Fixed(batchn)
                          && TensorSize(requests, typeSize, batchn, firstDim) == |requests| * RowSize(typeSize, batchn)
  {
    hide RowSize, GetByteSize;
    if !firstDim {
      CopiesSize(requests, typeSize, batchn, |requests|);
    } else if batchn[0] == WILDCARD_DIM {
      RowsSize(requests, typeSize, batchn, |requests|);
    } else {
      BatchSize(typeSize, batchn[0], batchn[1..]);
    }
  }

  lemma {:induction false} SomeRows(requests: seq<RequestInfo>, n: nat)
    requires n <= |requests| && forall i | 0 <= i < |requests| :: requests[i].shape != [] && requests[i].shape[0] >= 0
    ensures RowsOf(requests, n) >= 0
    ensures RowsOf(requests, n) > 0 <==> exists k | 0 <= k < n :: requests[k].shape[0] > 0
  {
    if n > 0 {
      SomeRows(requests, n - 1);
    }
  }

  lemma {:induction false} RowsGrow(requests: seq<RequestInfo>, n: nat, m: nat)
    requires n <= m <= |requests|
    requires forall i | 0 <= i < |requests| :: requests[i].shape != [] && requests[i].shape[0] >= 0
    ensures RowsOf(requests, n) <= RowsOf(requests, m)
  {
    if n < m {
      RowsGrow(requests, n, m - 1);
    }
  }

  lemma {:induction false} SumToGrows(sizes: seq<nat>, i: nat, j: nat)
    requires i <= j <= |sizes|
    ensures SumTo(sizes, i) <= SumTo(sizes, j)
  {
    if i < j {
      SumToGrows(sizes, i, j - 1);
    }
  }

  /** A response that passes the batch-size check gets a slice within the tensor. */
  lemma {:induction false} SliceFits(requests: seq<RequestInfo>, typeSize: nat, batchn: Shape, firstDim: bool, i: nat)
    requires Splittable(requests, typeSize, batchn, firstDim) && i < |requests|
    requires firstDim && batchn[0] != WILDCARD_DIM ==> RowsOf(requests, i + 1) <= batchn[0]
    ensures var sizes := SizesFor(requests, typeSize, batchn, firstDim);
            SumTo(sizes, i) + sizes[i] <= TensorSize(requests, typeSize, batchn, firstDim)
  {
    hide GetByteSize, RowSize;
    var sizes := SizesFor(requests, typeSize, batchn, firstDim);
    if firstDim && batchn[0] != WILDCARD_DIM {
      RowsSize(requests, typeSize, batchn, i + 1);
      BatchSize(typeSize, batchn[0], batchn[1..]);
      MulGrows(RowsOf(requests, i + 1), batchn[0], RowSize(typeSize, batchn[1..]));
    } else {
      SumToGrows(sizes, i + 1, |requests|);
    }
  }

  lemma {:induction false} SliceInside(requests: seq<RequestInfo>, typeSize: nat, batchn: Shape, firstDim: bool, i: nat,
                                       t: Loc, inputs: iset<Loc>)
    requires Splittable(requests, typeSize, batchn, firstDim) && i < |requests|
    requires firstDim && batchn[0] != WILDCARD_DIM ==> RowsOf(requests, i + 1) <= batchn[0]
    requires Within(t, TensorSize(requests, typeSize, batchn, firstDim), inputs)
    ensures var sizes := SizesFor(requests, typeSize, batchn, firstDim);
            Within(t.Plus(SumTo(sizes, i)), sizes[i], inputs)
  {
    hide TensorSize, SizesFor, RowsOf;
    SliceFits(requests, typeSize, batchn, firstDim, i);
  }

  /** An output shape in which every unknown dimension is taken from an input. */
  function Substitute(out: Shape, input: Shape): (shape: Shape)
    requires Mappable(out, input)
    ensures |shape| == |out|
    ensures forall d | 0 <= d < |out| :: shape[d] == if out[d] == WILDCARD_DIM then input[d] else out[d]
  {
    seq(|out|, d requires 0 <= d < |out| => if out[d] == WILDCARD_DIM then input[d] else out[d])
  }

  predicate Mappable(out: Shape, input: Shape) {
    forall d | 0 <= d < |out| && out[d] == WILDCARD_DIM :: d < |input|
  }

  method OverrideShape(out: Shape, input: Shape) returns (shape: Shape)
    requires Mappable(out, input)
    ensures shape == Substitute(out, input)
  {
    shape := out;
    var d := 0;
    while d < |shape|
      invariant d <= |shape| == |out|
      invariant forall k | 0 <= k < d :: shape[k] == if out[k] == WILDCARD_DIM then input[k] else out[k]
      invariant forall k | d <= k < |shape| :: shape[k] == out[k]
    {
      if shape[d] == WILDCARD_DIM {
        shape := shape[d := input[d]];
      }
      d := d + 1;
    }
  }

  /** Every output shape is known once its unknown dimensions are filled in. */
  predicate Scatterable(requests: seq<RequestInfo>, typeSize: nat, out: Shape) {
    typeSize > 0 && forall i | 0 <= i < |requests| ::
                      Mappable(out, requests[i].shape) && Fixed(Substitute(out, requests[i].shape))
  }

  function ScatterSizes(requests: seq<RequestInfo>, typeSize: nat, out: Shape): (sizes: seq<nat>)
    requires Scatterable(requests, typeSize, out)
    ensures |sizes| == |requests|
    ensures forall i | 0 <= i < |requests| :: sizes[i] == GetByteSize(typeSize, Substitute(out, requests[i].shape))
  {
    if requests == [] then []
    else
      var l := requests[|requests| - 1];
      ScatterSizes(requests[..|requests| - 1], typeSize, out) + [GetByteSize(typeSize, Substitute(out, l.shape))]
  }

  lemma {:induction false} PartInside(sizes: seq<nat>, i: nat, t: Loc, inputs: iset<Loc>)
    requires i < |sizes| && Within(t, SumTo(sizes, |sizes|), inputs)
    ensures Within(t.Plus(SumTo(sizes, i)), sizes[i], inputs)
  {
    SumToGrows(sizes, i + 1, |sizes|);
  }

  class OutputResponder {
    const dev: Device
    const resp: ResponseSet
    const count: nat
    const firstDimBatching: bool
    const pinnedEnabled: bool
    const useEvent: bool
    const copyOnStream: bool

    var needSync: bool
    var pinnedSize: nat
    var pinnedOffset: nat
    var pinnedOutputs: seq<Chunk>
    var deferred: seq<DeferredOutputs>
    /** The staging regions kept alive until the responder is destroyed. */
    var inUse: set<nat>

    ghost const orig: Memory
    ghost var r: Regions
    ghost var obls: seq<Obligation>
    /** What had been issued, and which responses were left, at the beginning. */
    ghost const start: nat
    ghost const left: seq<bool>
    /** The responses into whose buffers a copy was issued after they had been sent. */
    ghost var late: iset<nat>
    /** The copies tried for responses whose slice was lost on its way into staging memory,
        and the late copies of Finalize. */
    ghost var again: seq<Try>
    ghost var finished: iset<nat>

    constructor (dev: Device, resp: ResponseSet, firstDimBatching: bool, pinnedEnabled: bool, useEvent: bool,
                 copyOnStream: bool, ghost tensors: iset<Loc>)
      requires resp.Valid() && dev.stream == [] && dev.bufferReady
      requires forall l | l in tensors :: !l.space.Staging? && (l.space.Owned? ==> l.space.ownedSerial < dev.nextSerial)
      ensures Idle() && obls == [] && r == Regions(tensors, iset{}, iset{}) && orig == dev.mem
      ensures this.dev == dev && this.resp == resp && count == |resp.live|
      ensures this.firstDimBatching == firstDimBatching && this.useEvent == useEvent
      ensures this.pinnedEnabled == pinnedEnabled && this.copyOnStream == copyOnStream && !needSync && deferred == []
      ensures late == iset{} && again == [] && finished == iset{} && start == |dev.issued| && left == resp.live
    {
      this.dev, this.resp, this.count := dev, resp, |resp.live|;
      this.firstDimBatching, this.pinnedEnabled := firstDimBatching, pinnedEnabled;
      this.useEvent, this.copyOnStream := useEvent, copyOnStream;
      needSync := false;
      pinnedSize, pinnedOffset, pinnedOutputs := 0, 0, [];
      deferred, inUse := [], {};
      orig, obls := dev.mem, [];
      start, left := |dev.issued|, resp.live;
      late, again, finished := iset{}, [], iset{};
      NoTries([], iset{});
      NobodyYet(dev.issued, resp.live, resp.failedAt);
      r := Regions(tensors, iset{}, iset{});
    }

    /** What holds between two calls. */
    ghost predicate Idle()
      reads this, dev, resp
    {
      && Base(inUse) && Pending([]) && SyncTracked() && LateTold()
      && pinnedSize == 0 == pinnedOffset && pinnedOutputs == []
      && (useEvent && needSync ==> dev.marked == |dev.stream|)
    }

    /** Copies are late exactly if they were issued for a lost slice or by Finalize. */
    ghost predicate LateTold()
      reads this`late, this`again, this`finished, dev`issued, resp
    {
      LateLogged() && late == IssuedTo(again) + finished && Sure(again)
    }

    /** What has been issued says who is late, and holds the copies for lost slices. */
    ghost predicate LateLogged()
      reads this`late, this`again, dev`issued, resp
    {
      LateAre(late, dev.issued, start, left, resp.live, resp.failedAt) && InLog(again, dev.issued)
    }

    ghost predicate InLog(tries: seq<Try>, ops: seq<Issue>) {
      start <= |ops|
      && forall t | t in tries && t.issued :: HowIssued(t.copy, dev.gpuEnabled, copyOnStream) in ops[start..]
    }

    lemma {:induction false} StillInLog(tries: seq<Try>, ops0: seq<Issue>, ops1: seq<Issue>)
      requires InLog(tries, ops0) && ops0 <= ops1
      ensures InLog(tries, ops1)
    {
      hide HowIssued;
      assert ops1[start..] == ops0[start..] + ops1[|ops0|..];
    }

    lemma {:induction false} BothInLog(tries0: seq<Try>, tries1: seq<Try>, ops0: seq<Issue>, ops1: seq<Issue>)
      requires InLog(tries0, ops1) && start <= |ops0| && ops0 <= ops1
      requires forall t | t in tries1 && t.issued :: HowIssued(t.copy, dev.gpuEnabled, copyOnStream) in ops1[|ops0|..]
      ensures InLog(tries0 + tries1, ops1)
    {
      hide HowIssued;
      assert ops1[start..] == ops0[start..] + ops1[|ops0|..];
    }

    ghost predicate SyncTracked()
      reads this`needSync, this`deferred, dev`stream
    {
      && (dev.stream != [] || deferred != [] ==> needSync)
      && (needSync ==> dev.gpuEnabled)
    }

    ghost function Now(): View
      reads this`deferred, this`r, dev`mem, dev`stream, resp`live
    {
      View(dev.mem, dev.stream, Flat(deferred), resp.live, r)
    }

    ghost predicate Base(owned: set<nat>)
      reads this`deferred, this`r, this`obls, dev`mem, dev`stream, dev`nextSerial, dev`bufferReady, resp
    {
      Now().Ok(orig, obls, owned) && Healthy(owned)
    }

    ghost predicate Healthy(owned: set<nat>)
      reads this`r, this`deferred, dev`stream, dev`nextSerial, dev`bufferReady, resp
    {
      && resp.Valid() && |resp.live| == count && dev.bufferReady
      && (forall s | s in owned :: s < dev.nextSerial)
      && (forall l | (l in r.inputs || l in r.dests) && l.space.Owned? :: l.space.ownedSerial < dev.nextSerial)
      && (!dev.gpuEnabled ==> dev.stream == [] && deferred == []) && Single(deferred)
    }

    ghost predicate Pending(obs: seq<Obligation>)
      reads this`deferred, this`r, this`obls, dev`mem, dev`stream, resp`live
    {
      Now().Pending(orig, obls, obs)
    }

    /** The outputs recorded for staging are those that obs is about. */
    ghost predicate Recorded(t: Loc, obs: seq<Obligation>)
      reads this`pinnedSize, this`pinnedOffset, this`pinnedOutputs, this`r
    {
      pinnedSize == Sizes(pinnedOutputs) && Outputs(pinnedOutputs, obs, pinnedOffset, t, r, count)
    }

    /** Inside a call. */
    ghost predicate Scattering(t: Loc, obs: seq<Obligation>)
      reads this, dev, resp
    {
      Base(inUse) && Pending(obs) && SyncTracked() && Recorded(t, obs) && LateTold()
    }

    // -------------------------------------------------------------------------
    // When a call leaves something to wait for
    // -------------------------------------------------------------------------

    /** A copy of a part of the tensor at t to a buffer at p, unless it is refused,
        goes to the stream. */
    predicate Streams(p: Loc, t: Loc) {
      dev.gpuEnabled && (copyOnStream || TakesDevice(p, t))
    }

    /** One of the buffers is filled through the stream. */
    ghost predicate SomeStreams(slots: seq<Slot>, t: Loc) {
      exists k | 0 <= k < |slots| :: slots[k].Held? && Streams(slots[k].p, t)
    }

    lemma {:induction false} SomeStreamsStep(slots: seq<Slot>, slot: Slot, t: Loc)
      ensures SomeStreams(slots + [slot], t) <==> SomeStreams(slots, t) || (slot.Held? && Streams(slot.p, t))
      ensures !SomeStreams([], t) && (SomeStreams(slots, t) ==> dev.gpuEnabled)
    {
      var slots' := slots + [slot];
      assert slots'[|slots|] == slot;
      if SomeStreams(slots, t) {
        var k :| 0 <= k < |slots| && slots[k].Held? && Streams(slots[k].p, t);
        assert slots'[k] == slots[k];
      }
    }

    /** The copy of a slice of the tensor at t to a buffer, by the host or through the stream. */
    function IssueOf(slice: Loc, p: Loc, size: nat, t: Loc): Issue {
      if Streams(p, t) then ByStream(Copy(slice, p, size)) else ByHost(Copy(slice, p, size))
    }

    /** One response has been dealt with: the copy to its buffer is issued, or it has none
        or has failed. */
    ghost predicate OneIssued(ops0: seq<Issue>, ops1: seq<Issue>, slot: Slot, slice: Loc, size: nat, t: Loc, left: bool) {
      || (slot.Held? && ops1 == ops0 + [IssueOf(slice, slot.p, size, t)])
      || (ops1 == ops0 && (slot.Held? ==> !left))
    }

    /** Since ops0 the copies to the buffers have been issued, apart from those whose
        responses have failed, and no others. */
    ghost predicate AllIssued(ops0: seq<Issue>, ops1: seq<Issue>, cut: Cut, slots: seq<Slot>, live: seq<bool>) {
      && ops0 <= ops1 && |slots| <= |cut.sizes| && |slots| <= |live|
      && (forall op | op in ops1[|ops0|..] :: IsIssue(op, cut, slots))
      && forall k | 0 <= k < |slots| && slots[k].Held? && live[k] ::
           IssueOf(cut.SliceAt(k), slots[k].p, cut.sizes[k], cut.t) in ops1[|ops0|..]
    }

    ghost predicate IsIssue(op: Issue, cut: Cut, slots: seq<Slot>)
      requires |slots| <= |cut.sizes|
    {
      exists k | 0 <= k < |slots| ::
        slots[k].Held? && op == IssueOf(cut.SliceAt(k), slots[k].p, cut.sizes[k], cut.t)
    }

    lemma {:induction false} NoneIssued(ops: seq<Issue>, cut: Cut, live: seq<bool>)
      ensures AllIssued(ops, ops, cut, [], live)
    {}

    lemma {:induction false} NextIssued(ops0: seq<Issue>, ops1: seq<Issue>, ops2: seq<Issue>, cut: Cut, slots: seq<Slot>,
                                        slot: Slot, live0: seq<bool>, live1: seq<bool>)
      requires AllIssued(ops0, ops1, cut, slots, live0) && OnlyNulled(live0, live1)
      requires |slots| < |cut.sizes| && |slots| < |live1|
      requires OneIssued(ops1, ops2, slot, cut.SliceAt(|slots|), cut.sizes[|slots|], cut.t, live1[|slots|])
      ensures AllIssued(ops0, ops2, cut, slots + [slot], live1)
    {
      hide IssueOf, SumTo;
      var slots', new1, new2 := slots + [slot], ops1[|ops0|..], ops2[|ops0|..];
      assert new2 == new1 + ops2[|ops1|..];
      forall op | op in new2
        ensures IsIssue(op, cut, slots')
      {
        if op in new1 {
          assert IsIssue(op, cut, slots);
          var k :| 0 <= k < |slots| && slots[k].Held?
                   && op == IssueOf(cut.SliceAt(k), slots[k].p, cut.sizes[k], cut.t);
          assert slots'[k] == slots[k];
        } else {
          assert slots'[|slots|] == slot;
        }
      }
    }

    lemma {:induction false} StillIssued(ops0: seq<Issue>, ops1: seq<Issue>, cut: Cut, slots: seq<Slot>, live0: seq<bool>,
                                         live1: seq<bool>)
      requires AllIssued(ops0, ops1, cut, slots, live0) && OnlyNulled(live0, live1)
      ensures AllIssued(ops0, ops1, cut, slots, live1)
    {
      hide IssueOf, SumTo;
    }

    /** needSync says whether there was something to wait for, or a buffer given since
        is filled through the stream; unless a copy was refused, or such buffers are
        recorded for staging. */
    ghost predicate SyncKnown(slots: seq<Slot>, t: Loc, before: bool)
      reads this`needSync, this`pinnedOutputs, dev`refusals
    {
      && (before ==> needSync) && (needSync ==> before || SomeStreams(slots, t))
      && (!dev.refusals.any && SomeStreams(slots, t) ==> needSync || pinnedOutputs != [])
      && (dev.gpuEnabled && pinnedOutputs != [] ==> SomeStreams(slots, t))
      && AllTakeDevice(pinnedOutputs, t) && (!pinnedEnabled ==> pinnedOutputs == [])
    }

    /** Copies for one response; if the copy is refused the response fails. */
    method CopyOrFail(c: Copy, response: nat) returns (cudaUsed: bool, ghost how: Outcome)
      requires resp.Valid() && response < |resp.live| && dev.bufferReady && IndependentOfAll(c, dev.stream)
      requires LateLogged() && c.dst.space.IsFor(response)
      modifies dev`mem, dev`stream, dev`issued, dev`refusals, resp, this`late
      ensures LateLogged()
      ensures resp.Valid() && Losses(old(resp.live), resp.live, old(dev.refusals), dev.refusals, iset{})
      ensures resp.live == if how.Refused? then NullRange(old(resp.live), response, response) else old(resp.live)
      ensures late == old(late) + if how.Refused? || old(resp.live)[response] then iset{} else iset{response}
      ensures how == if cudaUsed then OnStream else if how.AtOnce? then AtOnce else Refused
      ensures how.Refused? ==> AllNull(resp.live, response, response)
      ensures how.Refused? ==> TakesDevice(c.dst, c.src) || (c.n > 0 && (c.src.IsNull() || c.dst.IsNull()))
      ensures dev.mem == (if how.AtOnce? then Apply(old(dev.mem), c) else old(dev.mem))
      ensures dev.stream == old(dev.stream) + (if how.OnStream? then [c] else [])
      ensures dev.issued == old(dev.issued)
                            + if how.Refused? then [] else [if how.OnStream? then ByStream(c) else ByHost(c)]
      ensures cudaUsed ==> dev.gpuEnabled
      ensures dev.refusals == if how.Refused? then old(dev.refusals).Add(Range(response, response)) else old(dev.refusals)
      ensures !how.Refused? ==> cudaUsed == dev.UsesStream(c, copyOnStream)
    {
      hide LateAre, InLog, IndependentOfAll;
      ghost var ops, live, at := dev.issued, resp.live, resp.failedAt;
      var ok;
      ok, cudaUsed := dev.CopyBuffer(c, copyOnStream, Range(response, response));
      how := if !ok then Refused else if cudaUsed then OnStream else AtOnce;
      if !ok {
        assert dev.issued == ops;
        resp.FailRange(response, response, |dev.issued|);
        SentNow(late, ops, start, left, live, at, resp.live);
      } else {
        StartBefore(again, ops);
        OneMoreCopy(late, ops, start, left, live, at, dev.issued[|ops|], response);
        StillInLog(again, ops, dev.issued);
        late := late + if resp.live[response] then iset{} else iset{response};
      }
    }

    lemma {:induction false} StartBefore(tries: seq<Try>, ops: seq<Issue>)
      requires InLog(tries, ops)
      ensures start <= |ops|
    {}

    method FailAll(outs: seq<Chunk>)
      requires resp.Valid() && LateLogged() && forall b | b in outs :: b.first == b.last < |resp.live|
      modifies resp
      ensures LateLogged()
      ensures resp.Valid() && OnlyNulled(old(resp.live), resp.live) && AllFailed(outs, resp.live)
      ensures forall k: nat | k < |resp.live| && old(resp.live)[k] && !resp.live[k] :: HasPart(outs, k)
    {
      hide LateAre, InLog;
      var i := 0;
      while i < |outs|
        invariant i <= |outs| && resp.Valid() && OnlyNulled(old(resp.live), resp.live) && LateLogged()
        invariant forall j | 0 <= j < i :: AllNull(resp.live, outs[j].first, outs[j].last)
        invariant forall k: nat | k < |resp.live| && old(resp.live)[k] && !resp.live[k] :: HasPart(outs, k)
      {
        assert outs[i] in outs;
        ghost var live, at := resp.live, resp.failedAt;
        resp.FailRange(outs[i].first, outs[i].last, |dev.issued|);
        SentNow(late, dev.issued, start, left, live, at, resp.live);
        i := i + 1;
      }
    }

    // -------------------------------------------------------------------------
    // Flushing what is recorded
    // -------------------------------------------------------------------------

    /** Without staging: copies each recorded output straight from the tensor. */
    method CopyDirectly(t: Loc, ghost obs: seq<Obligation>) returns (cudaCopy: bool)
      requires LateLogged()
      requires Base(inUse) && Pending(obs) && Recorded(t, obs) && InOrder(pinnedOutputs, resp.live, count)
      modifies dev`mem, dev`stream, dev`issued, dev`refusals, resp, this`r, this`late
      ensures late == old(late) && LateLogged()
      ensures Base(inUse) && Pending([]) && Losses(old(resp.live), resp.live, old(dev.refusals), dev.refusals, iset{})
      ensures r.inputs == old(r.inputs) && r.dests == old(r.dests)
      ensures pinnedOutputs == [] ==> dev.issued == old(dev.issued)
      ensures cudaCopy ==> dev.gpuEnabled && pinnedOutputs != []
      ensures AllTakeDevice(pinnedOutputs, t) && !dev.refusals.any && dev.gpuEnabled && pinnedOutputs != [] ==> cudaCopy
      ensures !cudaCopy ==> dev.stream == old(dev.stream)
    {
      hide Base, Pending, Outputs, Losses, AllTakeDevice, InOrder, LateLogged;
      NoLosses(resp.live, dev.refusals);
      SliceSource(pinnedOutputs, obs, pinnedOffset, t, r, count);
      cudaCopy := false;
      var offset: nat := 0;
      var rest := pinnedOutputs;
      ghost var waiting := obs;
      while rest != []
        invariant Base(inUse) && Pending(waiting)
        invariant Losses(old(resp.live), resp.live, old(dev.refusals), dev.refusals, iset{})
        invariant Outputs(rest, waiting, pinnedOffset + offset, t, r, count) && |waiting| == |rest| <= |pinnedOutputs|
        invariant r.inputs == old(r.inputs) && r.dests == old(r.dests)
        invariant cudaCopy ==> dev.gpuEnabled && pinnedOutputs != []
        invariant InOrder(rest, resp.live, count) && late == old(late) && LateLogged()
        invariant pinnedOutputs == [] ==> dev.issued == old(dev.issued)
        invariant AllTakeDevice(pinnedOutputs, t) ==> AllTakeDevice(rest, t)
        invariant AllTakeDevice(pinnedOutputs, t) && !dev.refusals.any && dev.gpuEnabled && |rest| < |pinnedOutputs| ==> cudaCopy
        invariant !cudaCopy ==> dev.stream == old(dev.stream)
      {
        ghost var live, f := resp.live, dev.refusals;
        TakeDeviceParts(rest, rest[0], t);
        InOrderFirst(rest, resp.live, count);
        var cuda := CopyOutput(rest, t, pinnedOffset + offset, waiting);
        InOrderTail(rest, live, resp.live, count);
        LossesJoin(old(resp.live), live, resp.live, old(dev.refusals), f, dev.refusals, iset{}, iset{});
        cudaCopy := cudaCopy || cuda;
        offset := offset + rest[0].size;
        rest, waiting := rest[1..], waiting[1..];
      }
      assert waiting == [];
    }

    lemma {:induction false} InOrderFirst(outs: seq<Chunk>, live: seq<bool>, n: nat)
      requires outs != [] && InOrder(outs, live, n)
      ensures outs[0].first < |live| && live[outs[0].first]
    {}

    method CopyOutput(outs: seq<Chunk>, t: Loc, offset: nat, ghost obs: seq<Obligation>) returns (cudaCopy: bool)
      requires outs != [] && Base(inUse) && Pending(obs) && Outputs(outs, obs, offset, t, r, count)
      requires outs[0].first < |resp.live| && resp.live[outs[0].first] && LateLogged()
      modifies dev`mem, dev`stream, dev`issued, dev`refusals, resp, this`r, this`late
      ensures LateLogged() && late == old(late) && OnlyOne(old(resp.live), resp.live, outs[0].first)
      ensures |obs| == |outs| && Base(inUse) && Pending(obs[1..])
      ensures Losses(old(resp.live), resp.live, old(dev.refusals), dev.refusals, iset{})
      ensures Outputs(outs[1..], obs[1..], offset + outs[0].size, t, r, count)
      ensures r.inputs == old(r.inputs) && r.dests == old(r.dests)
      ensures cudaCopy ==> dev.gpuEnabled
      ensures !dev.refusals.any ==> cudaCopy == Streams(outs[0].ptr, t)
      ensures !cudaCopy ==> dev.stream == old(dev.stream)
    {
      hide View.Ok, View.Pending, Outputs, IndependentOfAll, Within, LateLogged;
      var c := FromTensor(outs[0], t, offset);
      ghost var v := Now();
      OutputsTail(outs, obs, offset, t, r, count);
      FirstOutput(outs, obs, offset, t, r, count);
      QueueIndependent(v, orig, obls, inUse, c);
      ghost var how;
      cudaCopy, how := CopyOrFail(c, outs[0].first);
      r := r.Take(c.dst, c.n);
      DirectCopy(v, Now(), orig, obls, inUse, obs[0], c, !how.Refused?, obs, obs[1..]);
    }

    /** Copies the slice of the tensor that the recorded outputs need into staging
        region s, in one piece. */
    method StageSlice(t: Loc, s: nat, ghost obs: seq<Obligation>) returns (cudaUsed: bool, ghost lost: bool)
      requires Base(inUse) && Pending(obs) && Recorded(t, obs) && s !in inUse && s < dev.nextSerial
      requires pinnedOutputs != [] && LateLogged()
      modifies dev`mem, dev`stream, dev`issued, dev`refusals, resp
      ensures LateLogged() && old(dev.issued) <= dev.issued
      ensures Slicing(Now(), orig, obls, inUse + {s}, s, 0, pinnedOutputs, obs, pinnedOffset, t) && Healthy(inUse + {s})
      ensures if lost then dev.refusals.any && !cudaUsed && AllFailed(pinnedOutputs, resp.live)
              else resp.live == old(resp.live)
      ensures lost ==> !LeftFirst(pinnedOutputs, resp.live)
      ensures Losses(old(resp.live), resp.live, old(dev.refusals), dev.refusals, iset{})
      ensures cudaUsed ==> dev.gpuEnabled
      ensures dev.gpuEnabled && t.space.Type() == Gpu && !dev.refusals.any ==> cudaUsed
      ensures t.space.Type() == Gpu && !lost ==> cudaUsed
      ensures !cudaUsed ==> dev.stream == old(dev.stream) && NoStageWrites(dev.stream, s)
    {
      hide View.Ok, View.Pending, Outputs, IndependentOfAll, Within, StagingUse, Sliced, LateAre, InLog;
      ghost var v, owned, ops := Now(), inUse + {s}, dev.issued;
      var c := Copy(t.Plus(pinnedOffset), StagingAt(s, 0), pinnedSize);
      SliceSource(pinnedOutputs, obs, pinnedOffset, t, r, count);
      OwnStaging(v, orig, obls, inUse, s);
      StageIndependent(v, orig, obls, owned, s, 0, Chunk(c.src, c.n, 0, 0));
      var ok;
      ok, cudaUsed := dev.CopyBuffer(c, copyOnStream, ResponsesOf(pinnedOutputs));
      if !ok {
        assert dev.issued == ops;
        FailAll(pinnedOutputs);
        FirstFailed(pinnedOutputs, resp.live);
      } else {
        OneMoreStaged(late, ops, start, left, resp.live, resp.failedAt, dev.issued[|ops|]);
        StillInLog(again, ops, dev.issued);
      }
      lost := !ok;
      SliceStaged(v, Now(), orig, obls, owned, s, pinnedOutputs, obs, pinnedOffset, t, count, ok);
    }

    /** The tensor is in host memory, and the buffers are in that of the device. */
    ghost predicate HandsToDevice(outs: seq<Chunk>, t: Loc) {
      dev.gpuEnabled && t.space.Type() != Gpu && AllTakeDevice(outs, t)
    }

    /** The staged slice is there, or lost, and then the responses have been sent:
        copies its parts to the responses all the same. */
    method HandOut(t: Loc, s: nat, ghost obs: seq<Obligation>, ghost lost: bool)
      returns (cudaCopy: bool, ghost tries: seq<Try>)
      requires if lost then AllFailed(pinnedOutputs, resp.live) else InOrder(pinnedOutputs, resp.live, count)
      requires Slicing(Now(), orig, obls, inUse + {s}, s, 0, pinnedOutputs, obs, pinnedOffset, t)
      requires Healthy(inUse + {s})
      requires NoStageWrites(dev.stream, s) && LateLogged()
      modifies dev`mem, dev`stream, dev`issued, dev`refusals, resp, this`r, this`late
      ensures Base(inUse + {s}) && Pending([]) && LateLogged()
      ensures Losses(old(resp.live), resp.live, old(dev.refusals), dev.refusals, iset{})
      ensures Tried(tries, OutputCopies(DeferredOutputs(s, pinnedOutputs)), dev.gpuEnabled, copyOnStream,
                    old(dev.issued), dev.issued)
      ensures late == old(late) + if lost then IssuedTo(tries) else iset{}
      ensures lost && HostBuffers(pinnedOutputs) ==> late == old(late) + ResponsesOf(pinnedOutputs)
      ensures r.inputs == old(r.inputs) && r.dests == old(r.dests)
      ensures cudaCopy ==> dev.gpuEnabled && pinnedOutputs != []
      ensures pinnedOutputs != [] && HandsToDevice(pinnedOutputs, t) && !dev.refusals.any ==> cudaCopy
      ensures !cudaCopy ==> dev.stream == old(dev.stream)
    {
      hide Slicing, NoStageWrites, Healthy, Losses, AllTakeDevice, InOrder, AllFailed, Tried, IssuedTo, OnlyNulled, OnlyOne;
      hide LateLogged, OutputCopies, HowIssued, TriedOne, Sizes, Own, HostBuffers, ResponsesOf;
      NoLosses(resp.live, dev.refusals);
      NoTries(resp.live, late);
      NothingHandedOut(s);
      cudaCopy, tries := false, [];
      ghost var done: seq<Chunk> := [];
      assert done + pinnedOutputs == pinnedOutputs;
      var offset: nat := 0;
      var rest := pinnedOutputs;
      ghost var waiting := obs;
      while rest != []
        invariant Slicing(Now(), orig, obls, inUse + {s}, s, offset, rest, waiting, pinnedOffset + offset, t)
        invariant Healthy(inUse + {s}) && NoStageWrites(dev.stream, s)
        invariant Losses(old(resp.live), resp.live, old(dev.refusals), dev.refusals, iset{})
        invariant r.inputs == old(r.inputs) && r.dests == old(r.dests) && |rest| <= |pinnedOutputs|
        invariant cudaCopy ==> dev.gpuEnabled && pinnedOutputs != []
        invariant AllTakeDevice(pinnedOutputs, t) ==> AllTakeDevice(rest, t)
        invariant if lost then AllFailed(rest, resp.live) else InOrder(rest, resp.live, count)
        invariant Tried(tries, OutputCopies(DeferredOutputs(s, done)), dev.gpuEnabled, copyOnStream, old(dev.issued),
                        dev.issued)
        invariant done + rest == pinnedOutputs && LateLogged() && offset == Sizes(done)
        invariant late == old(late) + if lost then IssuedTo(tries) else iset{}
        invariant |rest| < |pinnedOutputs| && HandsToDevice(pinnedOutputs, t) && !dev.refusals.any ==> cudaCopy
        invariant !cudaCopy ==> dev.stream == old(dev.stream)
      {
        ghost var live, f, ops := resp.live, dev.refusals, dev.issued;
        TakeDeviceParts(rest, rest[0], t);
        Regroup(done, rest);
        var cuda;
        ghost var one;
        cuda, one := HandOutOne(rest, t, s, offset, pinnedOffset + offset, waiting);
        OnlyLosses(live, resp.live, f, dev.refusals, iset{});
        NextHandedOut(tries, s, done, rest[0], old(dev.issued), ops, dev.issued, one);
        OneMoreIssued(tries, one);
        tries, done := tries + [one], done + [rest[0]];
        if lost {
          StillFailed(rest, live, resp.live);
        } else {
          InOrderFirst(rest, live, count);
          InOrderTail(rest, live, resp.live, count);
        }
        LossesJoin(old(resp.live), live, resp.live, old(dev.refusals), f, dev.refusals, iset{}, iset{});
        cudaCopy := cudaCopy || cuda;
        offset := offset + rest[0].size;
        rest, waiting := rest[1..], waiting[1..];
      }
      Whole(inUse + {s}, s, offset, rest, waiting, pinnedOffset + offset, t);
      assert done == pinnedOutputs;
      if HostBuffers(pinnedOutputs) {
        HandedToHost(tries, s, pinnedOutputs, old(dev.issued), dev.issued);
      }
    }

    lemma {:induction false} HandedToHost(tries: seq<Try>, s: nat, outs: seq<Chunk>, ops0: seq<Issue>, ops1: seq<Issue>)
      requires Tried(tries, OutputCopies(DeferredOutputs(s, outs)), dev.gpuEnabled, copyOnStream, ops0, ops1)
      requires HostBuffers(outs)
      ensures IssuedTo(tries) == ResponsesOf(outs)
    {
      hide Tried, StagingAt, Sizes;
      HostTries(tries, OutputCopies(DeferredOutputs(s, outs)), dev.gpuEnabled, copyOnStream, ops0, ops1, outs);
    }

    /** The buffers lie in host memory. */
    predicate HostBuffers(outs: seq<Chunk>) {
      forall o | o in outs :: o.first == o.last && o.ptr.space.Type() != Gpu && !o.ptr.IsNull()
    }

    lemma {:induction false} NothingHandedOut(s: nat)
      ensures OutputCopies(DeferredOutputs(s, [])) == [] && Sizes([]) == 0
      ensures Tried([], OutputCopies(DeferredOutputs(s, [])), dev.gpuEnabled, copyOnStream, dev.issued, dev.issued)
    {}

    lemma {:induction false} NextHandedOut(tries: seq<Try>, s: nat, done: seq<Chunk>, out: Chunk, ops0: seq<Issue>,
                                           ops1: seq<Issue>, ops2: seq<Issue>, t: Try)
      requires Tried(tries, OutputCopies(DeferredOutputs(s, done)), dev.gpuEnabled, copyOnStream, ops0, ops1)
      requires TriedOne(t, DeferredPinned(Copy(StagingAt(s, Sizes(done)), out.ptr, out.size), [out]))
      requires ops2 == ops1 + if t.issued then [HowIssued(t.copy, dev.gpuEnabled, copyOnStream)] else []
      ensures Tried(tries + [t], OutputCopies(DeferredOutputs(s, done + [out])), dev.gpuEnabled, copyOnStream, ops0, ops2)
      ensures Sizes(done + [out]) == Sizes(done) + out.size
    {
      hide Tried, TriedOne, HowIssued, Sizes;
      var d := DeferredPinned(Copy(StagingAt(s, Sizes(done)), out.ptr, out.size), [out]);
      OutputCopiesNext(s, done, out);
      TriedNext(tries, OutputCopies(DeferredOutputs(s, done)), dev.gpuEnabled, copyOnStream, ops0, ops1, ops2, t, d);
    }

    lemma {:induction false} Regroup(done: seq<Chunk>, rest: seq<Chunk>)
      requires rest != []
      ensures done + [rest[0]] + rest[1..] == done + rest
    {}

    lemma {:induction false} OneMoreIssued(tries: seq<Try>, t: Try)
      ensures IssuedTo(tries + [t]) == IssuedTo(tries) + if t.issued then iset{t.response} else iset{}
    {
      var ts := tries + [t];
      assert ts[|tries|] == t && forall j | 0 <= j < |tries| :: ts[j] == tries[j];
      assert forall i: nat :: IsIssued(ts, i) <==> IsIssued(tries, i) || (t.issued && t.response == i);
    }

    lemma {:induction false} StillFailed(outs: seq<Chunk>, live0: seq<bool>, live1: seq<bool>)
      requires outs != [] && outs[0].first == outs[0].last && AllFailed(outs, live0) && OnlyNulled(live0, live1)
      ensures AllFailed(outs[1..], live1) && outs[0].first < |live0| && !live0[outs[0].first]
    {
      assert outs[0] in outs;
      assert forall o | o in outs[1..] :: o in outs;
    }

    lemma {:induction false} Whole(owned: set<nat>, s: nat, off: nat, outs: seq<Chunk>, obs: seq<Obligation>,
                                   base: nat, t: Loc)
      requires Slicing(Now(), orig, obls, owned, s, off, outs, obs, base, t) && Healthy(owned) && outs == []
      ensures Base(owned) && Pending([])
    {
      assert obs == [];
    }

    method HandOutOne(outs: seq<Chunk>, t: Loc, s: nat, off: nat, base: nat, ghost obs: seq<Obligation>)
      returns (cudaCopy: bool, ghost one: Try)
      requires outs != [] && Slicing(Now(), orig, obls, inUse + {s}, s, off, outs, obs, base, t) && Healthy(inUse + {s})
      requires NoStageWrites(dev.stream, s) && LateLogged()
      modifies dev`mem, dev`stream, dev`issued, dev`refusals, resp, this`r, this`late
      ensures LateLogged()
      ensures |obs| == |outs| && Healthy(inUse + {s}) && NoStageWrites(dev.stream, s)
      ensures outs[0].first == outs[0].last < |resp.live| && OnlyOne(old(resp.live), resp.live, outs[0].first)
      ensures late == old(late) + if !one.issued || old(resp.live)[outs[0].first] then iset{} else iset{outs[0].first}
      ensures one.response == outs[0].first
      ensures TriedOne(one, DeferredPinned(Copy(StagingAt(s, off), outs[0].ptr, outs[0].size), [outs[0]]))
      ensures dev.issued == old(dev.issued)
                            + if one.issued then [HowIssued(one.copy, dev.gpuEnabled, copyOnStream)] else []
      ensures Slicing(Now(), orig, obls, inUse + {s}, s, off + outs[0].size, outs[1..], obs[1..], base + outs[0].size, t)
      ensures Losses(old(resp.live), resp.live, old(dev.refusals), dev.refusals, iset{})
      ensures r.inputs == old(r.inputs) && r.dests == old(r.dests)
      ensures cudaCopy ==> dev.gpuEnabled
      ensures !dev.refusals.any && dev.gpuEnabled && outs[0].ptr.space.Type() == Gpu ==> cudaCopy
      ensures !cudaCopy ==> dev.stream == old(dev.stream)
    {
      hide Slicing, IndependentOfAll, NoStageWrites, Single, LateLogged;
      var c := Copy(StagingAt(s, off), outs[0].ptr, outs[0].size);
      ghost var v := Now();
      HandOutSafe(v, orig, obls, inUse + {s}, s, off, outs, obs, base, t, c);
      ghost var how;
      cudaCopy, how := CopyOrFail(c, outs[0].first);
      one := Try(outs[0].first, c, !how.Refused?);
      r := r.Take(c.dst, c.n);
      OutputStep(v, Now(), orig, obls, inUse + {s}, s, off, outs, obs, base, t, how);
    }

    /** Puts the copies of a staged slice off until Finalize. */
    method PutOffSlice(t: Loc, s: nat, ghost obs: seq<Obligation>)
      requires Slicing(Now(), orig, obls, inUse + {s}, s, 0, pinnedOutputs, obs, pinnedOffset, t)
      requires Healthy(inUse + {s})
      requires dev.gpuEnabled
      modifies this`r, this`deferred
      ensures Base(inUse + {s}) && Pending([])
      ensures r.inputs == old(r.inputs) && r.dests == old(r.dests)
    {
      hide Slicing, Flat, View.Ok, View.Pending;
      ghost var v, d := Now(), DeferredOutputs(s, pinnedOutputs);
      SlicingSource(v, orig, obls, inUse + {s}, s, 0, pinnedOutputs, obs, pinnedOffset, t);
      WholeSlicePutOff(v, orig, obls, inUse + {s}, d, obs, pinnedOffset, t);
      FlatAppend(deferred, d);
      deferred := deferred + [DeferredOutputs(s, pinnedOutputs)];
      r := TakeAll(r, pinnedOutputs);
    }

    /** A slice is only lost by a refusal. */
    ghost predicate LostKnown(again0: seq<Try>)
      reads this`again, dev`refusals
    {
      again0 <= again && (again != again0 ==> dev.refusals.any)
    }

    /** Stages the slice, and then copies its parts to the responses or puts that off. */
    method FlushThroughStaging(t: Loc, s: nat, ghost obs: seq<Obligation>) returns (cudaCopy: bool)
      requires Base(inUse) && Pending(obs) && Recorded(t, obs) && InOrder(pinnedOutputs, resp.live, count)
      requires s !in inUse && s < dev.nextSerial && pinnedOutputs != [] && LateTold()
      modifies dev`mem, dev`stream, dev`issued, dev`refusals, resp, this`r, this`deferred, this`late, this`again
      ensures LateTold()
      ensures Base(inUse + {s}) && Pending([]) && LostKnown(old(again))
      ensures Losses(old(resp.live), resp.live, old(dev.refusals), dev.refusals, iset{})
      ensures r.inputs == old(r.inputs) && r.dests == old(r.dests)
      ensures cudaCopy ==> dev.gpuEnabled
      ensures AllTakeDevice(pinnedOutputs, t) && dev.gpuEnabled && !dev.refusals.any ==> cudaCopy
      ensures !cudaCopy ==> dev.stream == old(dev.stream) && deferred == old(deferred)
      ensures t.space.Type() == Gpu && HostBuffers(pinnedOutputs) ==>
                late == old(late) + if LeftFirst(pinnedOutputs, resp.live) then iset{} else ResponsesOf(pinnedOutputs)
    {
      hide View.Ok, View.Pending, Outputs, Slicing, NoStageWrites, Losses, AllTakeDevice, AllFailed, InOrder, LateAre, InLog;
      hide Tried, IssuedTo, HowIssued, OutputCopies, Sure, HostBuffers, ResponsesOf;
      InOrderFirst(pinnedOutputs, resp.live, count);
      ghost var live, f := resp.live, dev.refusals;
      ghost var lost, tries;
      cudaCopy, lost := StageSlice(t, s, obs);
      if !cudaCopy {
        ghost var live1, f1 := resp.live, dev.refusals;
        ghost var ops := dev.issued;
        StartBefore(again, ops);
        cudaCopy, tries := HandOut(t, s, obs, lost);
        if lost {
          BothIssued(again, tries, finished);
          TriedSure(tries, OutputCopies(DeferredOutputs(s, pinnedOutputs)), dev.gpuEnabled, copyOnStream, ops, dev.issued);
          TriedAgain(tries, ops);
          again := again + tries;
        }
        OnlyLosses(live1, resp.live, f1, dev.refusals, iset{});
        LossesJoin(live, live1, resp.live, f, f1, dev.refusals, iset{}, iset{});
      } else {
        PutOffSlice(t, s, obs);
      }
    }

    /** The copies for a lost slice have been issued as well. */
    lemma {:induction false} TriedAgain(tries: seq<Try>, ops: seq<Issue>)
      requires LateLogged() && start <= |ops| && ops <= dev.issued
      requires forall t | t in tries && t.issued :: HowIssued(t.copy, dev.gpuEnabled, copyOnStream) in dev.issued[|ops|..]
      ensures InLog(again + tries, dev.issued)
    {
      BothInLog(again, tries, ops, dev.issued);
    }

    /** The first of the outputs still has its response. */
    predicate LeftFirst(outs: seq<Chunk>, live: seq<bool>)
    {
      outs != [] && outs[0].first < |live| && live[outs[0].first]
    }

    lemma {:induction false} FirstFailed(outs: seq<Chunk>, live: seq<bool>)
      requires outs != [] && AllFailed(outs, live) && outs[0] in outs && outs[0].first == outs[0].last
      ensures !LeftFirst(outs, live)
    {}

    lemma {:induction false} BothIssued(a: seq<Try>, b: seq<Try>, rest: iset<nat>)
      ensures IssuedTo(a) + rest + IssuedTo(b) == IssuedTo(a + b) + rest
      ensures Sure(a) && Sure(b) ==> Sure(a + b)
    {
      BothParts(a, b);
      assert forall i: nat :: IsIssued(a + b, i) <==> IsIssued(a, i) || IsIssued(b, i);
    }

    lemma {:induction false} NoneNothing(t: Loc, obs: seq<Obligation>)
      requires Recorded(t, obs) && pinnedSize > 0
      ensures pinnedOutputs != []
    {}

    /** Asks for a staging region of its own. */
    method AllocateStaging(t: Loc, ghost obs: seq<Obligation>) returns (ok: bool, s: nat)
      requires Base(inUse) && Pending(obs)
      modifies dev`nextSerial
      ensures Base(inUse) && Pending(obs) && dev.nextSerial >= old(dev.nextSerial)
      ensures ok ==> s !in inUse && s < dev.nextSerial
    {
      hide Flat, Single, View.Ok, View.Pending;
      ok, s := dev.AllocateStaging();
    }

    /** Gives every recorded output its slice of the tensor. */
    method FlushPendingPinned(t: Loc, ghost obs: seq<Obligation>) returns (cudaCopy: bool)
      requires Base(inUse) && Pending(obs) && Recorded(t, obs) && InOrder(pinnedOutputs, resp.live, count)
      requires LateTold()
      modifies dev`mem, dev`stream, dev`issued, dev`refusals, dev`nextSerial, resp, this`r, this`deferred, this`inUse
      modifies this`late, this`again
      modifies this`pinnedSize, this`pinnedOffset, this`pinnedOutputs
      ensures Base(inUse) && Pending([]) && LateTold()
      ensures pinnedSize == 0 && pinnedOffset == 0 && pinnedOutputs == [] && inUse >= old(inUse)
      ensures LostKnown(old(again)) && (old(pinnedOutputs) == [] ==> again == old(again))
      ensures Losses(old(resp.live), resp.live, old(dev.refusals), dev.refusals, iset{})
      ensures r.inputs == old(r.inputs) && r.dests == old(r.dests) && dev.nextSerial >= old(dev.nextSerial)
      ensures old(pinnedOutputs) == [] ==> dev.issued == old(dev.issued)
      ensures cudaCopy ==> dev.gpuEnabled && old(pinnedOutputs) != []
      ensures old(AllTakeDevice(pinnedOutputs, t) && dev.gpuEnabled && pinnedOutputs != []) && !dev.refusals.any ==> cudaCopy
      ensures !cudaCopy ==> dev.stream == old(dev.stream) && deferred == old(deferred)
    {
      hide Base, Pending, Recorded, LateLogged, Sure, IssuedTo, Losses, AllTakeDevice, InOrder;
      var staging, s := false, 0;
      if pinnedSize > 0 {
        NoneNothing(t, obs);
        staging, s := AllocateStaging(t, obs);
      }
      if !staging {
        cudaCopy := CopyDirectly(t, obs);
      } else {
        cudaCopy := FlushThroughStaging(t, s, obs);
      }
      pinnedSize, pinnedOffset, pinnedOutputs := 0, 0, [];
      if staging {
        inUse := inUse + {s};
      }
    }

    // -------------------------------------------------------------------------
    // One response's part of a tensor
    // -------------------------------------------------------------------------

    /** Flushes what is recorded, and keeps track of what must be waited for. */
    method FlushRecorded(t: Loc, ghost obs: seq<Obligation>, ghost slots: seq<Slot>, ghost before: bool)
      requires Scattering(t, obs) && SyncKnown(slots, t, before) && InOrder(pinnedOutputs, resp.live, |slots|)
      requires |slots| <= count
      modifies dev`mem, dev`stream, dev`issued, dev`refusals, dev`nextSerial, resp, this`r, this`deferred, this`inUse
      modifies this`late, this`again
      modifies this`needSync
      modifies this`pinnedSize, this`pinnedOffset, this`pinnedOutputs
      ensures Scattering(t, []) && pinnedSize == 0 == pinnedOffset && pinnedOutputs == [] && SyncKnown(slots, t, before)
      ensures Losses(old(resp.live), resp.live, old(dev.refusals), dev.refusals, iset{})
      ensures r.inputs == old(r.inputs) && r.dests == old(r.dests) && dev.nextSerial >= old(dev.nextSerial)
      ensures !pinnedEnabled ==> deferred == old(deferred) && again == old(again)
      ensures LostKnown(old(again)) && InOrder(pinnedOutputs, resp.live, |slots|)
      ensures !pinnedEnabled ==> dev.issued == old(dev.issued)
    {
      hide Base, Pending, SomeStreams, AllTakeDevice, InOrder, LateTold;
      InOrderUpTo(pinnedOutputs, resp.live, |slots|, count);
      SomeStreamsStep(slots, NoBuffer, t);
      TakeDeviceParts([], OutputData(0, t, 0), t);
      var cuda := FlushPendingPinned(t, obs);
      needSync := needSync || cuda;
      NothingRecorded(resp.live, |slots|);
    }

    /** A new buffer, or else the response fails. */
    method BufferOrFail(i: nat, t: Loc, ghost obs: seq<Obligation>) returns (ok: bool, buffer: Loc)
      requires Scattering(t, obs) && i < count
      modifies dev`refusals, dev`nextSerial, resp
      ensures Scattering(t, obs) && |resp.live| == count && OnlyOne(old(resp.live), resp.live, i)
      ensures Losses(old(resp.live), resp.live, old(dev.refusals), dev.refusals, iset{})
      ensures dev.nextSerial >= old(dev.nextSerial) && (!ok ==> !resp.live[i])
      ensures ok ==> resp.live == old(resp.live) && dev.refusals == old(dev.refusals)
      ensures ok ==> buffer.space.IsFor(i) && old(dev.nextSerial) <= buffer.space.ownedSerial < dev.nextSerial
      ensures ok ==> forall l: Loc | l.space == buffer.space :: l !in r.inputs && l !in r.dests
    {
      hide View.Ok, View.Pending, Outputs, LateAre;
      ok, buffer := dev.AllocateOutput(i);
      if !ok {
        ghost var v, at := Now(), resp.failedAt;
        resp.FailRange(i, i, |dev.issued|);
        SentNow(late, dev.issued, start, left, v.live, at, resp.live);
        LiveDrops(v, Now(), orig, obls, inUse, obs);
      }
    }

    /** Pinned memory may be used, and the buffer and the tensor are on different sides. */
    predicate Stages(p: Loc, t: Loc) {
      pinnedEnabled && Crosses(p.space.Type(), t.space.Type())
    }

    /** Gets a buffer for response i and records it for staging or copies its slice
        of the tensor, which starts at offset. */
    method SetFixedSizeBuffer(i: nat, size: nat, t: Loc, offset: nat, usePinned: MemoryType, ghost w: Tally)
      returns (ghost slot: Slot, ghost obs: seq<Obligation>)
      requires Scattering(t, w.obs) && i < count && Within(t.Plus(offset), size, r.inputs)
      requires SyncKnown(w.slots, t, w.before) && usePinned == UsePinned(t)
      requires InOrder(pinnedOutputs, resp.live, i) && i < |resp.live| && resp.live[i]
      requires pinnedSize > 0 ==> pinnedOffset + pinnedSize == offset
      modifies dev`mem, dev`stream, dev`issued, dev`refusals, dev`nextSerial, resp, this`r, this`obls, this`needSync
      modifies this`late
      modifies this`pinnedSize, this`pinnedOffset, this`pinnedOutputs
      ensures Scattering(t, obs) && Losses(old(resp.live), resp.live, old(dev.refusals), dev.refusals, iset{})
      ensures SyncKnown(w.slots + [slot], t, w.before)
      ensures InOrder(pinnedOutputs, resp.live, i + 1) && OnlyOne(old(resp.live), resp.live, i) && late == old(late)
      ensures slot.NoBuffer? ==> !resp.live[i]
      ensures pinnedOutputs
           == old(pinnedOutputs) + if slot.Held? && Stages(slot.p, t) then [OutputData(i, slot.p, size)] else []
      ensures if slot.Held? && Stages(slot.p, t) then dev.issued == old(dev.issued) else
                OneIssued(old(dev.issued), dev.issued, slot, t.Plus(offset), size, t, i < |resp.live| && resp.live[i])
      ensures slot.Held? ==> slot.p.space.IsFor(i) && old(dev.nextSerial) <= slot.p.space.ownedSerial < dev.nextSerial
      ensures obls == old(obls) + (if slot.Held? then [Obligation(Copy(t.Plus(offset), slot.p, size), i, i)] else [])
      ensures r.inputs == old(r.inputs) && dev.nextSerial >= old(dev.nextSerial)
      ensures r.dests == if slot.Held? then old(r).Grant(slot.p, size).dests else old(r.dests)
    {
      hide Base, Pending, Recorded, SomeStreams, AllTakeDevice, InOrder, Losses, LateTold;
      var ok, buffer := BufferOrFail(i, t, w.obs);
      slot, obs := NoBuffer, w.obs;
      if !ok {
        InOrderNext(pinnedOutputs, old(resp.live), resp.live, i, OutputData(i, buffer, size));
        OnlyLosses(old(resp.live), resp.live, old(dev.refusals), dev.refusals, iset{});
        SomeStreamsStep(w.slots, slot, t);
        return;
      }
      slot := Held(buffer);
      GrantBuffer(t, obs, buffer, size);
      obs := FillBuffer(i, buffer, size, t, offset, usePinned, w);
    }

    /** Fills the buffer given to response i, through staging memory or directly. */
    method FillBuffer(i: nat, buffer: Loc, size: nat, t: Loc, offset: nat, usePinned: MemoryType, ghost w: Tally)
      returns (ghost obs: seq<Obligation>)
      requires Scattering(t, w.obs) && i < count && Within(t.Plus(offset), size, r.inputs)
      requires SyncKnown(w.slots, t, w.before) && usePinned == UsePinned(t)
      requires InOrder(pinnedOutputs, resp.live, i) && i < |resp.live| && resp.live[i]
      requires pinnedSize > 0 ==> pinnedOffset + pinnedSize == offset
      requires Within(buffer, size, r.unwritten) && buffer.space.IsFor(i)
      requires forall k | 0 <= k < |pinnedOutputs| :: Apart(pinnedOutputs[k].ptr, pinnedOutputs[k].size, buffer, size)
      requires Outputs(pinnedOutputs, w.obs, pinnedOffset, t, r.Take(buffer, size), count)
      modifies dev`mem, dev`stream, dev`issued, dev`refusals, resp, this`r, this`obls, this`needSync, this`late
      modifies this`pinnedSize, this`pinnedOffset, this`pinnedOutputs
      ensures Scattering(t, obs) && Losses(old(resp.live), resp.live, old(dev.refusals), dev.refusals, iset{})
      ensures SyncKnown(w.slots + [Held(buffer)], t, w.before)
      ensures InOrder(pinnedOutputs, resp.live, i + 1) && OnlyOne(old(resp.live), resp.live, i) && late == old(late)
      ensures obls == old(obls) + [Obligation(Copy(t.Plus(offset), buffer, size), i, i)]
      ensures pinnedOutputs == old(pinnedOutputs) + if Stages(buffer, t) then [OutputData(i, buffer, size)] else []
      ensures if Stages(buffer, t) then dev.issued == old(dev.issued) else
                OneIssued(old(dev.issued), dev.issued, Held(buffer), t.Plus(offset), size, t, i < |resp.live| && resp.live[i])
      ensures r.inputs == old(r.inputs) && r.dests == old(r.dests)
    {
      hide Base, Pending, Recorded, Outputs, SomeStreams, AllTakeDevice, InOrder, Within, Apart, Losses, OnlyOne;
      ghost var outs := pinnedOutputs;
      var out := OutputData(i, buffer, size);
      SomeStreamsStep(w.slots, Held(buffer), t);
      TakeDeviceParts(pinnedOutputs, out, t);
      NoLosses(resp.live, dev.refusals);
      SameOne(resp.live, i);
      if usePinned != CpuPinned && buffer.space.Type() == usePinned {
        obs := Record(out, t, offset, w.obs);
      } else {
        obs := w.obs;
        CopyAtOnce(out, t, offset, obs);
        OnlyLosses(old(resp.live), resp.live, old(dev.refusals), dev.refusals, iset{});
      }
      InOrderNext(outs, old(resp.live), resp.live, i, out);
    }

    /** Takes a fresh buffer into account. */
    ghost method GrantBuffer(t: Loc, obs: seq<Obligation>, buffer: Loc, size: nat)
      requires Base(inUse) && Pending(obs) && Recorded(t, obs)
      requires buffer.space.Owned? && buffer.space.ownedSerial < dev.nextSerial
      requires forall l: Loc | In(l, buffer, size) :: l !in r.inputs && l !in r.dests
      modifies this`r
      ensures Base(inUse) && Pending(obs) && Recorded(t, obs) && r == old(r).Grant(buffer, size)
      ensures Within(buffer, size, r.unwritten)
      ensures forall k | 0 <= k < |pinnedOutputs| :: Apart(pinnedOutputs[k].ptr, pinnedOutputs[k].size, buffer, size)
      ensures Outputs(pinnedOutputs, obs, pinnedOffset, t, r.Take(buffer, size), count)
    {
      hide View.Pending, Outputs, OpsOk, Untouched, DeferredOk;
      ghost var v := Now();
      OutputsStay(pinnedOutputs, obs, pinnedOffset, t, r, count, buffer, size);
      r := r.Grant(buffer, size);
      hide View.Ok;
      GrantTensor(v, Now(), orig, obls, inUse, Tensor(buffer, size), obs);
    }

    /** Records an output for staging. */
    method Record(out: Chunk, t: Loc, offset: nat, ghost obs0: seq<Obligation>) returns (ghost obs: seq<Obligation>)
      requires Scattering(t, obs0) && Own(out) && out.first < count
      requires Within(t.Plus(offset), out.size, r.inputs) && Within(out.ptr, out.size, r.unwritten)
      requires forall k | 0 <= k < |pinnedOutputs| :: Apart(pinnedOutputs[k].ptr, pinnedOutputs[k].size, out.ptr, out.size)
      requires pinnedSize > 0 ==> pinnedOffset + pinnedSize == offset
      modifies this`obls, this`pinnedSize, this`pinnedOffset, this`pinnedOutputs
      ensures Scattering(t, obs) && pinnedOutputs == old(pinnedOutputs) + [out]
      ensures obls == old(obls) + [Obligation(FromTensor(out, t, offset), out.first, out.first)]
    {
      hide View.Ok, View.Pending, Outputs, Within, Apart, SyncTracked, LateTold, Sizes;
      ghost var ob := Obligation(FromTensor(out, t, offset), out.first, out.first);
      OutputsGrow(pinnedOutputs, obs0, pinnedOffset, t, r, count, out, offset);
      AddObligation(Now(), orig, obls, inUse, ob, obs0);
      if pinnedSize == 0 {
        pinnedOffset := offset;
      }
      pinnedSize := pinnedSize + out.size;
      pinnedOutputs := pinnedOutputs + [out];
      obls := obls + [ob];
      obs := obs0 + [ob];
    }

    /** Copies an output without staging. */
    method CopyAtOnce(out: Chunk, t: Loc, offset: nat, ghost obs: seq<Obligation>)
      requires Scattering(t, obs) && Own(out) && out.first < count
      requires out.first < |resp.live| && resp.live[out.first]
      requires Within(t.Plus(offset), out.size, r.inputs) && Within(out.ptr, out.size, r.unwritten)
      requires Outputs(pinnedOutputs, obs, pinnedOffset, t, r.Take(out.ptr, out.size), count)
      modifies dev`mem, dev`stream, dev`issued, dev`refusals, resp, this`r, this`obls, this`needSync, this`late
      ensures Scattering(t, obs) && Losses(old(resp.live), resp.live, old(dev.refusals), dev.refusals, iset{})
      ensures obls == old(obls) + [Obligation(FromTensor(out, t, offset), out.first, out.first)]
      ensures r.inputs == old(r.inputs) && r.dests == old(r.dests)
      ensures OnlyOne(old(resp.live), resp.live, out.first) && late == old(late)
      ensures OneIssued(old(dev.issued), dev.issued, Held(out.ptr), t.Plus(offset), out.size, t,
                        out.first < |resp.live| && resp.live[out.first])
      ensures old(needSync) ==> needSync
      ensures needSync ==> old(needSync) || Streams(out.ptr, t)
      ensures !dev.refusals.any ==> needSync == (old(needSync) || Streams(out.ptr, t))
    {
      hide Base, Pending, Outputs, Within, Losses, Streams, OnlyOne, OneIssued, LateLogged;
      var cuda := CopySlice(out, t, offset, obs);
      needSync := needSync || cuda;
    }

    method CopySlice(out: Chunk, t: Loc, offset: nat, ghost obs: seq<Obligation>) returns (cuda: bool)
      requires Base(inUse) && Pending(obs) && LateLogged() && Own(out) && out.first < count
      requires out.first < |resp.live| && resp.live[out.first]
      requires Within(t.Plus(offset), out.size, r.inputs) && Within(out.ptr, out.size, r.unwritten)
      modifies dev`mem, dev`stream, dev`issued, dev`refusals, resp, this`r, this`obls, this`late
      ensures Base(inUse) && Pending(obs) && LateLogged()
      ensures Losses(old(resp.live), resp.live, old(dev.refusals), dev.refusals, iset{})
      ensures obls == old(obls) + [Obligation(FromTensor(out, t, offset), out.first, out.first)]
      ensures r == old(r).Take(out.ptr, out.size)
      ensures OnlyOne(old(resp.live), resp.live, out.first) && late == old(late)
      ensures OneIssued(old(dev.issued), dev.issued, Held(out.ptr), t.Plus(offset), out.size, t,
                        out.first < |resp.live| && resp.live[out.first])
      ensures if cuda then dev.gpuEnabled else dev.stream == old(dev.stream)
      ensures cuda ==> Streams(out.ptr, t)
      ensures !dev.refusals.any ==> cuda == Streams(out.ptr, t)
    {
      hide View.Ok, View.Pending, Within, IndependentOfAll, Losses, LateLogged;
      var c := FromTensor(out, t, offset);
      ghost var v, ob := Now(), Obligation(FromTensor(out, t, offset), out.first, out.first);
      QueueIndependent(v, orig, obls, inUse, c);
      ghost var how;
      cuda, how := CopyOrFail(c, out.first);
      r := r.Take(c.dst, c.n);
      ChunkCopied(v, Now(), orig, obls, inUse, ob, !how.Refused?, obs);
      obls := obls + [ob];
    }

    /** A call into the server on behalf of response i, which fails if it is refused. */
    method AskOrFail(i: nat, t: Loc, ghost w: Tally, ghost live0: seq<bool>, ghost f0: Refusals)
      requires Scattering(t, w.obs) && i < count && InOrder(pinnedOutputs, resp.live, i)
      requires SyncKnown(w.slots, t, w.before) && SyncKnown(w.slots + [NoBuffer], t, w.before)
      requires Losses(live0, resp.live, f0, dev.refusals, iset{})
      modifies dev`refusals, resp
      ensures Scattering(t, w.obs) && Losses(live0, resp.live, f0, dev.refusals, iset{}) && |resp.live| == count
      ensures SyncKnown(w.slots, t, w.before) && SyncKnown(w.slots + [NoBuffer], t, w.before)
      ensures InOrder(pinnedOutputs, resp.live, i) && InOrder(pinnedOutputs, resp.live, i + 1)
      ensures resp.live[i] ==> i < |old(resp.live)| && old(resp.live)[i]
    {
      hide InOrder, Scattering, Losses, SomeStreams, AllTakeDevice;
      ghost var live, f := resp.live, dev.refusals;
      Ask(i, t, w.obs);
      ScatterCount(t, w.obs);
      OnlyLosses(live, resp.live, f, dev.refusals, iset{});
      LossesJoin(live0, live, resp.live, f0, f, dev.refusals, iset{}, iset{});
      InOrderNext(pinnedOutputs, live, resp.live, i, OutputData(i, t, 0));
    }

    method Ask(i: nat, t: Loc, ghost obs: seq<Obligation>)
      requires Scattering(t, obs) && i < count
      modifies dev`refusals, resp
      ensures Scattering(t, obs) && Losses(old(resp.live), resp.live, old(dev.refusals), dev.refusals, iset{})
      ensures OnlyOne(old(resp.live), resp.live, i)
    {
      hide View.Ok, View.Pending, Outputs, LateAre;
      ghost var v, at := Now(), resp.failedAt;
      var ok := dev.AskServer(Range(i, i));
      if !ok {
        resp.FailRange(i, i, |dev.issued|);
        SentNow(late, dev.issued, start, left, v.live, at, resp.live);
        LiveDrops(v, Now(), orig, obls, inUse, obs);
      }
    }

    /** Gives response i its slice, if it is left and its request wants the output. */
    method ScatterOutput(i: nat, name: string, outputs: seq<string>, size: nat, t: Loc, offset: nat,
                         usePinned: MemoryType, ghost w: Tally)
      returns (ghost slot: Slot, ghost obs: seq<Obligation>)
      requires Scattering(t, w.obs) && i < count && (resp.live[i] ==> Within(t.Plus(offset), size, r.inputs))
      requires SyncKnown(w.slots, t, w.before) && usePinned == UsePinned(t) && InOrder(pinnedOutputs, resp.live, i)
      requires pinnedSize > 0 ==> pinnedOffset + pinnedSize == offset
      modifies dev`mem, dev`stream, dev`issued, dev`refusals, dev`nextSerial, resp, this`r, this`obls, this`needSync
      modifies this`late
      modifies this`pinnedSize, this`pinnedOffset, this`pinnedOutputs
      ensures Scattering(t, obs) && Losses(old(resp.live), resp.live, old(dev.refusals), dev.refusals, iset{})
      ensures SyncKnown(w.slots + [slot], t, w.before)
      ensures InOrder(pinnedOutputs, resp.live, i + 1) && late == old(late)
      ensures slot.Held? ==> name in outputs
      ensures !pinnedEnabled ==>
                OneIssued(old(dev.issued), dev.issued, slot, t.Plus(offset), size, t, i < |resp.live| && resp.live[i])
      ensures resp.live[i] && name in outputs ==> slot.Held?
      ensures slot.Held? ==> slot.p.space.IsFor(i) && old(dev.nextSerial) <= slot.p.space.ownedSerial < dev.nextSerial
      ensures obls == old(obls) + (if slot.Held? then [Obligation(Copy(t.Plus(offset), slot.p, size), i, i)] else [])
      ensures r.inputs == old(r.inputs) && dev.nextSerial >= old(dev.nextSerial)
      ensures r.dests == if slot.Held? then old(r).Grant(slot.p, size).dests else old(r.dests)
    {
      hide Base, Pending, Recorded, Within, Regions.Grant, SyncKnown, Losses, InOrder, Scattering;
      ScatterCount(t, w.obs);
      InOrderNext(pinnedOutputs, resp.live, resp.live, i, OutputData(i, t, 0));
      slot, obs := NoBuffer, w.obs;
      NoBufferKnown(w.slots, t, w.before);
      NoLosses(resp.live, dev.refusals);
      if !resp.live[i] {
        return;
      }
      AskOrFail(i, t, w, old(resp.live), old(dev.refusals));
      if !resp.live[i] {
        return;
      }
      var k := 0;
      while k < |outputs|
        invariant k <= |outputs| && |resp.live| == count && (resp.live[i] ==> name !in outputs[..k])
        invariant Scattering(t, obs) && Losses(old(resp.live), resp.live, old(dev.refusals), dev.refusals, iset{})
        invariant slot.NoBuffer? && obs == w.obs && SyncKnown(w.slots + [slot], t, w.before)
        invariant SyncKnown(w.slots, t, w.before)
        invariant InOrder(pinnedOutputs, resp.live, i) && InOrder(pinnedOutputs, resp.live, i + 1)
        invariant unchanged(this) && dev.nextSerial == old(dev.nextSerial) && dev.issued == old(dev.issued)
      {
        AskOrFail(i, t, w, old(resp.live), old(dev.refusals));
        if resp.live[i] && outputs[k] == name {
          AskOrFail(i, t, w, old(resp.live), old(dev.refusals));
          if resp.live[i] {
            ghost var live, f := resp.live, dev.refusals;
            slot, obs := SetFixedSizeBuffer(i, size, t, offset, usePinned, w);
            LossesJoin(old(resp.live), live, resp.live, old(dev.refusals), f, dev.refusals, iset{}, iset{});
          }
          return;
        }
        k := k + 1;
      }
    }

    lemma {:induction false} NoBufferKnown(slots: seq<Slot>, t: Loc, before: bool)
      requires SyncKnown(slots, t, before)
      ensures SyncKnown(slots + [NoBuffer], t, before)
    {
      hide SomeStreams, AllTakeDevice;
      SomeStreamsStep(slots, NoBuffer, t);
    }

    lemma {:induction false} ScatterCount(t: Loc, obs: seq<Obligation>)
      requires Scattering(t, obs)
      ensures |resp.live| == count
    {}

    /** Creates the state of response i, if it is left, and gives it its slice. */
    method ScatterState(i: nat, size: nat, t: Loc, offset: nat, usePinned: MemoryType, ghost w: Tally)
      returns (created: bool, ghost slot: Slot, ghost obs: seq<Obligation>)
      requires Scattering(t, w.obs) && i < count && (resp.live[i] ==> Within(t.Plus(offset), size, r.inputs))
      requires SyncKnown(w.slots, t, w.before) && usePinned == UsePinned(t) && InOrder(pinnedOutputs, resp.live, i)
      requires pinnedSize > 0 ==> pinnedOffset + pinnedSize == offset
      modifies dev`mem, dev`stream, dev`issued, dev`refusals, dev`nextSerial, resp, this`r, this`obls, this`needSync
      modifies this`late
      modifies this`pinnedSize, this`pinnedOffset, this`pinnedOutputs
      ensures Scattering(t, obs) && Losses(old(resp.live), resp.live, old(dev.refusals), dev.refusals, iset{})
      ensures SyncKnown(w.slots + [slot], t, w.before)
      ensures InOrder(pinnedOutputs, resp.live, i + 1) && late == old(late)
      ensures slot.Held? ==> created
      ensures !pinnedEnabled ==>
                OneIssued(old(dev.issued), dev.issued, slot, t.Plus(offset), size, t, i < |resp.live| && resp.live[i])
      ensures resp.live[i] ==> slot.Held?
      ensures slot.Held? ==> slot.p.space.IsFor(i) && old(dev.nextSerial) <= slot.p.space.ownedSerial < dev.nextSerial
      ensures obls == old(obls) + (if slot.Held? then [Obligation(Copy(t.Plus(offset), slot.p, size), i, i)] else [])
      ensures r.inputs == old(r.inputs) && dev.nextSerial >= old(dev.nextSerial)
      ensures r.dests == if slot.Held? then old(r).Grant(slot.p, size).dests else old(r.dests)
    {
      hide Base, Pending, Recorded, Within, Regions.Grant, SyncKnown, Losses, InOrder;
      ScatterCount(t, w.obs);
      InOrderNext(pinnedOutputs, resp.live, resp.live, i, OutputData(i, t, 0));
      created, slot, obs := false, NoBuffer, w.obs;
      NoBufferKnown(w.slots, t, w.before);
      NoLosses(resp.live, dev.refusals);
      if resp.live[i] {
        AskOrFail(i, t, w, old(resp.live), old(dev.refusals));
        if resp.live[i] {
          created := true;
          ghost var live, f := resp.live, dev.refusals;
          slot, obs := SetFixedSizeBuffer(i, size, t, offset, usePinned, w);
          LossesJoin(old(resp.live), live, resp.live, old(dev.refusals), f, dev.refusals, iset{}, iset{});
        }
      }
    }

    // -------------------------------------------------------------------------
    // Cutting a tensor
    // -------------------------------------------------------------------------

    /** Inside a call, when the responses in w.slots have been dealt with. */
    ghost predicate Cutting(w: Tally)
      reads this, dev, resp
    {
      && Scattering(w.cut.t, w.obs) && |resp.live| == count
      && Answering(w.cut, w.slots, resp.live, obls, w.dests0, r.dests, w.lo, dev.nextSerial)
      && SyncKnown(w.slots, w.cut.t, w.before) && InOrder(pinnedOutputs, resp.live, |w.slots|)
      && (!pinnedEnabled ==> AllIssued(w.ops, dev.issued, w.cut, w.slots, resp.live))
    }

    /** The model's batch must still have room for the rows of response i. */
    method CheckBatch(i: nat, needed: int, batch: int, ghost w: Tally)
      requires Cutting(w) && i == |w.slots| < count
      modifies resp
      ensures Cutting(w)
      ensures Losses(old(resp.live), resp.live, old(dev.refusals), dev.refusals,
                     if batch != WILDCARD_DIM && needed > batch then iset{i} else iset{})
      ensures batch != WILDCARD_DIM && needed > batch ==> !resp.live[i]
    {
      hide View.Ok, View.Pending, Outputs, Answering, SyncKnown, InOrder, AllIssued, LateAre;
      ghost var v, at := Now(), resp.failedAt;
      if batch != WILDCARD_DIM && needed > batch {
        resp.FailRange(i, i, |dev.issued|);
        SentNow(late, dev.issued, start, left, v.live, at, resp.live);
        LiveDrops(v, Now(), orig, obls, inUse, w.obs);
        StillAnswering(w.cut, w.slots, v.live, resp.live, obls, obls, w.dests0, r.dests, w.lo,
                       dev.nextSerial, dev.nextSerial);
        InOrderNext(pinnedOutputs, v.live, resp.live, i, OutputData(i, w.cut.t, 0));
        if !pinnedEnabled {
          StillIssued(w.ops, dev.issued, w.cut, w.slots, v.live, resp.live);
        }
      }
    }

    /** Flushes what is recorded if the slice at offset would not continue it. */
    method FlushGap(t: Loc, offset: nat, ghost w0: Tally) returns (ghost w: Tally)
      requires Cutting(w0) && t == w0.cut.t
      modifies dev`mem, dev`stream, dev`issued, dev`refusals, dev`nextSerial, resp, this`r, this`deferred, this`inUse
      modifies this`late, this`again
      modifies this`needSync
      modifies this`pinnedSize, this`pinnedOffset, this`pinnedOutputs
      ensures Cutting(w) && w == w0.(obs := w.obs)
      ensures Losses(old(resp.live), resp.live, old(dev.refusals), dev.refusals, iset{})
      ensures pinnedSize > 0 ==> pinnedOffset + pinnedSize == offset
      ensures r.inputs == old(r.inputs) && dev.nextSerial >= old(dev.nextSerial)
      ensures !pinnedEnabled ==> deferred == old(deferred) && again == old(again)
      ensures LostKnown(old(again))
    {
      hide Scattering, SyncKnown, Losses, InOrder, Cut.Answered, InSlots, AllIssued;
      NoLosses(resp.live, dev.refusals);
      w := w0;
      if pinnedSize > 0 && offset != pinnedSize + pinnedOffset {
        FlushRecorded(t, w.obs, w.slots, w.before);
        OnlyLosses(old(resp.live), resp.live, old(dev.refusals), dev.refusals, iset{});
        w := w.(obs := []);
        StillAnswering(w.cut, w.slots, old(resp.live), resp.live, obls, obls, w.dests0, r.dests, w.lo,
                       old(dev.nextSerial), dev.nextSerial);
        if !pinnedEnabled {
          StillIssued(w.ops, dev.issued, w.cut, w.slots, old(resp.live), resp.live);
        }
      }
    }

    /** Response i, whose slice is next, is given it if its request wants it. */
    method CutOutput(i: nat, name: string, outputs: seq<string>, size: nat, t: Loc, offset: nat, usePinned: MemoryType,
                     ghost w0: Tally)
      returns (ghost w: Tally)
      requires Cutting(w0) && t == w0.cut.t && i == |w0.slots| < count && w0.lo <= dev.nextSerial
      requires size == w0.cut.sizes[i] && offset == SumTo(w0.cut.sizes, i) && w0.cut.wants[i] == (name in outputs)
      requires usePinned == UsePinned(t)
      requires resp.live[i] ==> Within(w0.cut.SliceAt(i), size, r.inputs)
      requires pinnedSize > 0 ==> pinnedOffset + pinnedSize == offset
      modifies dev`mem, dev`stream, dev`issued, dev`refusals, dev`nextSerial, resp, this`r, this`obls, this`needSync
      modifies this`late
      modifies this`pinnedSize, this`pinnedOffset, this`pinnedOutputs
      ensures Cutting(w) && |w.slots| == i + 1 && w == w0.(slots := w.slots, obs := w.obs)
      ensures Losses(old(resp.live), resp.live, old(dev.refusals), dev.refusals, iset{})
      ensures r.inputs == old(r.inputs) && dev.nextSerial >= old(dev.nextSerial)
      ensures (forall ob | ob in old(obls) :: ob in obls) && late == old(late)
    {
      hide Scattering, Answering, Within, Regions.Grant, SyncKnown, Losses, InOrder, AllIssued, OneIssued;
      ghost var slot, obs;
      slot, obs := ScatterOutput(i, name, outputs, size, t, offset, usePinned, w0);
      OnlyLosses(old(resp.live), resp.live, old(dev.refusals), dev.refusals, iset{});
      AnswerNext(w0.cut, w0.slots, slot, old(resp.live), resp.live, old(obls), obls, w0.dests0, old(r), r, w0.lo,
                 old(dev.nextSerial), dev.nextSerial);
      ScatterCount(w0.cut.t, obs);
      if !pinnedEnabled {
        NextIssued(w0.ops, old(dev.issued), dev.issued, w0.cut, w0.slots, slot, old(resp.live), resp.live);
      }
      w := w0.(slots := w0.slots + [slot], obs := obs);
    }

    /** Response i, whose slice is next, is given it as its state. */
    method CutState(i: nat, size: nat, t: Loc, offset: nat, usePinned: MemoryType,
                     ghost w0: Tally)
      returns (created: bool, ghost w: Tally)
      requires Cutting(w0) && t == w0.cut.t && i == |w0.slots| < count && w0.lo <= dev.nextSerial
      requires size == w0.cut.sizes[i] && offset == SumTo(w0.cut.sizes, i) && w0.cut.wants[i]
      requires usePinned == UsePinned(t)
      requires resp.live[i] ==> Within(w0.cut.SliceAt(i), size, r.inputs)
      requires pinnedSize > 0 ==> pinnedOffset + pinnedSize == offset
      modifies dev`mem, dev`stream, dev`issued, dev`refusals, dev`nextSerial, resp, this`r, this`obls, this`needSync
      modifies this`late
      modifies this`pinnedSize, this`pinnedOffset, this`pinnedOutputs
      ensures Cutting(w) && |w.slots| == i + 1 && w == w0.(slots := w.slots, obs := w.obs)
      ensures Losses(old(resp.live), resp.live, old(dev.refusals), dev.refusals, iset{})
      ensures r.inputs == old(r.inputs) && dev.nextSerial >= old(dev.nextSerial)
      ensures (forall ob | ob in old(obls) :: ob in obls) && late == old(late)
      ensures resp.live[i] ==> created
    {
      hide Scattering, Answering, Within, Regions.Grant, SyncKnown, Losses, InOrder, AllIssued, OneIssued;
      ghost var slot, obs;
      created, slot, obs := ScatterState(i, size, t, offset, usePinned, w0);
      OnlyLosses(old(resp.live), resp.live, old(dev.refusals), dev.refusals, iset{});
      AnswerNext(w0.cut, w0.slots, slot, old(resp.live), resp.live, old(obls), obls, w0.dests0, old(r), r, w0.lo,
                 old(dev.nextSerial), dev.nextSerial);
      ScatterCount(w0.cut.t, obs);
      if !pinnedEnabled {
        NextIssued(w0.ops, old(dev.issued), dev.issued, w0.cut, w0.slots, slot, old(resp.live), resp.live);
      }
      w := w0.(slots := w0.slots + [slot], obs := obs);
    }

    ghost method BeginCut(cut: Cut) returns (w: Tally)
      requires Idle() && cut.Valid(count)
      ensures Cutting(w) && w == Tally(cut, [], [], r.dests, dev.nextSerial, needSync, dev.issued) && |resp.live| == count
    {
      hide View.Ok, View.Pending, SomeStreams;
      w := Tally(cut, [], [], r.dests, dev.nextSerial, needSync, dev.issued);
      SliceOfNothing(cut.t);
      NoneIssued(dev.issued, cut, resp.live);
      SomeStreamsStep([], NoBuffer, cut.t);
    }

    /** Done with the tensor: flushes, and records the event when something is left
        to wait for. */
    method EndCut(t: Loc, ghost w: Tally)
      requires Cutting(w) && t == w.cut.t
      modifies dev`mem, dev`stream, dev`issued, dev`refusals, dev`nextSerial, dev`marked, resp, this`late, this`again
      modifies this`r, this`deferred, this`inUse, this`needSync, this`pinnedSize, this`pinnedOffset
      modifies this`pinnedOutputs
      ensures Idle() && |resp.live| == count
      ensures Losses(old(resp.live), resp.live, old(dev.refusals), dev.refusals, iset{})
      ensures r.inputs == old(r.inputs) && dev.nextSerial >= old(dev.nextSerial)
      ensures Answering(w.cut, w.slots, resp.live, obls, w.dests0, r.dests, w.lo, dev.nextSerial)
      ensures !pinnedEnabled ==> AllIssued(w.ops, dev.issued, w.cut, w.slots, resp.live)
      ensures needSync ==> w.before || SomeStreams(w.slots, t)
      ensures !dev.refusals.any ==> needSync == (w.before || SomeStreams(w.slots, t))
      ensures !pinnedEnabled ==> deferred == old(deferred) && again == old(again)
      ensures LostKnown(old(again))
    {
      hide Base, Pending, SomeStreams, AllTakeDevice, Losses, InOrder, Cut.Answered, InSlots, AllIssued;
      FlushRecorded(t, w.obs, w.slots, w.before);
      OnlyLosses(old(resp.live), resp.live, old(dev.refusals), dev.refusals, iset{});
      if !pinnedEnabled {
        StillIssued(w.ops, dev.issued, w.cut, w.slots, old(resp.live), resp.live);
      }
      StillAnswering(w.cut, w.slots, old(resp.live), resp.live, obls, obls, w.dests0, r.dests, w.lo,
                     old(dev.nextSerial), dev.nextSerial);
      if needSync && useEvent {
        dev.RecordEvent();
      }
    }

    function UsePinned(t: Loc): (staged: MemoryType)
      ensures staged != CpuPinned <==> pinnedEnabled && t.space.Type() != CpuPinned
      ensures staged != CpuPinned ==> Crosses(staged, t.space.Type())
    {
      if pinnedEnabled then GetUsePinnedMemoryType(t.space.Type()) else CpuPinned
    }

    /** The batch of the model has fewer rows than the first n requests. */
    predicate BatchTooSmall(requests: seq<RequestInfo>, batchn: Shape, n: nat)
      requires n <= |requests| && batchn != []
      requires firstDimBatching ==> forall i | 0 <= i < |requests| :: requests[i].shape != []
    {
      firstDimBatching && batchn[0] != WILDCARD_DIM && RowsOf(requests, n) > batchn[0]
    }

    lemma {:induction false} MoreRows(n: int, m: int, row: nat)
      requires row > 0
      ensures n > m <==> n * row > m * row
    {
      if n > m {
        MulGrows(m + 1, n, row);
        MulAdd(m, 1, row);
      } else {
        MulGrows(n, m, row);
      }
    }

    /** The check is never too strict and never too lax: it lets the first n responses
        pass exactly if the tensor has the bytes of their slices. */
    lemma {:induction false} ChecksBytes(requests: seq<RequestInfo>, typeSize: nat, batchn: Shape, n: nat)
      requires Splittable(requests, typeSize, batchn, firstDimBatching) && n <= |requests|
      requires RowSize(typeSize, batchn[1..]) > 0
      ensures BatchTooSmall(requests, batchn, n)
              <==> SumTo(SizesFor(requests, typeSize, batchn, firstDimBatching), n)
                   > TensorSize(requests, typeSize, batchn, firstDimBatching)
    {
      hide RowSize, SizesFor, TensorSize, Fixed;
      TensorBytes(requests, typeSize, batchn, firstDimBatching);
      if firstDimBatching {
        RowsSize(requests, typeSize, batchn, n);
        RowsGrow(requests, n, |requests|);
        var all := if batchn[0] == WILDCARD_DIM then RowsOf(requests, |requests|) else batchn[0];
        MoreRows(RowsOf(requests, n), all, RowSize(typeSize, batchn[1..]));
      } else {
        CopiesSize(requests, typeSize, batchn, n);
        MulGrows(n, |requests|, RowSize(typeSize, batchn));
      }
    }

    /** The caller's shape after the first n responses: the batch size of each is put
        in its first dimension. */
    function ShapeAfter(requests: seq<RequestInfo>, batchn: Shape, n: nat): (shape: Shape)
      requires n <= |requests| && batchn != []
      requires firstDimBatching ==> forall k | 0 <= k < |requests| :: requests[k].shape != []
      ensures n == 0 || !firstDimBatching ==> shape == batchn
      ensures n > 0 && firstDimBatching ==> shape == batchn[0 := requests[n - 1].shape[0]]
    {
      if n == 0 then batchn else ShapeFor(requests[n - 1], batchn, firstDimBatching)
    }

    /** The walk over the responses before the i-th: where the next slice starts,
        how many rows are used up, and the shape as overridden last. */
    predicate Walking(requests: seq<RequestInfo>, batchn: Shape, i: nat, shape: Shape, batchOffset: int)
      requires i <= |requests| && batchn != []
      requires firstDimBatching ==> forall k | 0 <= k < |requests| :: requests[k].shape != []
    {
      (firstDimBatching ==> batchOffset == RowsOf(requests, i)) && shape == ShapeAfter(requests, batchn, i)
    }

    /** The responses before the n-th that the model's batch has too few rows for. */
    ghost function Short(requests: seq<RequestInfo>, batchn: Shape, n: nat): iset<nat>
      requires n <= |requests| && batchn != []
      requires firstDimBatching ==> forall i | 0 <= i < |requests| :: requests[i].shape != []
    {
      iset i: nat | IsShort(requests, batchn, n, i)
    }

    predicate IsShort(requests: seq<RequestInfo>, batchn: Shape, n: nat, i: nat)
      requires n <= |requests| && batchn != []
      requires firstDimBatching ==> forall i | 0 <= i < |requests| :: requests[i].shape != []
    {
      i < n && BatchTooSmall(requests, batchn, i + 1)
    }

    lemma {:induction false} ShortStep(requests: seq<RequestInfo>, batchn: Shape, n: nat)
      requires n < |requests| && batchn != []
      requires firstDimBatching ==> forall i | 0 <= i < |requests| :: requests[i].shape != []
      ensures Short(requests, batchn, 0) == iset{}
      ensures Short(requests, batchn, n + 1)
           == Short(requests, batchn, n) + if BatchTooSmall(requests, batchn, n + 1) then iset{n} else iset{}
    {
      hide BatchTooSmall;
    }

    /** A second call with the same vector checks the batch against the rows of the
        last request alone, and so fails someone exactly if another has rows. */
    lemma {:induction false} SameVectorAgain(requests: seq<RequestInfo>, typeSize: nat, batchn: Shape)
      requires firstDimBatching && requests != [] && Splittable(requests, typeSize, batchn, true)
      ensures ShapeAfter(requests, batchn, |requests|) != []
      ensures (exists n | 0 < n <= |requests| :: BatchTooSmall(requests, ShapeAfter(requests, batchn, |requests|), n))
              <==> exists k | 0 <= k < |requests| - 1 :: requests[k].shape[0] > 0
    {
      SomeRows(requests, |requests| - 1);
      forall n | 0 < n <= |requests|
        ensures RowsOf(requests, n) <= RowsOf(requests, |requests|)
      {
        RowsGrow(requests, n, |requests|);
      }
      assert RowsOf(requests, |requests|) > requests[|requests| - 1].shape[0]
             ==> BatchTooSmall(requests, ShapeAfter(requests, batchn, |requests|), |requests|);
    }

    /** The shape and the rows for response i. */
    lemma {:induction false} WalkNext(requests: seq<RequestInfo>, batchn: Shape, i: nat, shape: Shape, batchOffset: int)
      requires i < |requests| && batchn != []
      requires firstDimBatching ==> forall k | 0 <= k < |requests| :: requests[k].shape != []
      requires Walking(requests, batchn, i, shape, batchOffset)
      ensures shape != []
      ensures firstDimBatching ==>
                && shape[0 := requests[i].shape[0]] == ShapeFor(requests[i], batchn, true)
                && batchOffset + requests[i].shape[0] == RowsOf(requests, i + 1)
                && Walking(requests, batchn, i + 1, ShapeFor(requests[i], batchn, true), RowsOf(requests, i + 1))
      ensures !firstDimBatching ==>
                shape == ShapeFor(requests[i], batchn, false) && Walking(requests, batchn, i + 1, shape, batchOffset)
    {}

    /** Finds the slice of response i, after a flush if it would leave a gap; the
        response fails if the model's batch has too few rows for it. */
    method NextSlice(requests: seq<RequestInfo>, typeSize: nat, batchn: Shape, i: nat, t: Loc, offset: nat,
                     shape0: Shape, batchOffset0: int, ghost w0: Tally)
      returns (shape: Shape, batchOffset: int, size: nat, ghost w: Tally)
      requires Cutting(w0) && t == w0.cut.t && i == |w0.slots| < |requests| == count && |resp.live| == count
      requires Splittable(requests, typeSize, batchn, firstDimBatching)
      requires w0.cut.sizes == SizesFor(requests, typeSize, batchn, firstDimBatching)
      requires offset == SumTo(w0.cut.sizes, i)
      requires Walking(requests, batchn, i, shape0, batchOffset0)
      requires AnyLive(resp.live) ==> Within(t, TensorSize(requests, typeSize, batchn, firstDimBatching), r.inputs)
      modifies dev`mem, dev`stream, dev`issued, dev`refusals, dev`nextSerial, resp, this`r, this`deferred, this`inUse
      modifies this`late, this`again
      modifies this`needSync
      modifies this`pinnedSize, this`pinnedOffset, this`pinnedOutputs
      ensures Cutting(w) && w == w0.(obs := w.obs) && |resp.live| == count
      ensures (pinnedSize > 0 ==> pinnedOffset + pinnedSize == offset)
      ensures Walking(requests, batchn, i + 1, shape, batchOffset) && size == w0.cut.sizes[i]
      ensures resp.live[i] ==> Within(w0.cut.SliceAt(i), size, r.inputs)
      ensures r.inputs == old(r.inputs) && dev.nextSerial >= old(dev.nextSerial)
      ensures Losses(old(resp.live), resp.live, old(dev.refusals), dev.refusals,
                     if BatchTooSmall(requests, batchn, i + 1) then iset{i} else iset{})
      ensures BatchTooSmall(requests, batchn, i + 1) ==> !resp.live[i]
      ensures !pinnedEnabled ==> deferred == old(deferred) && again == old(again)
      ensures LostKnown(old(again))
    {
      hide Cutting, Within, Fixed, TensorSize, GetByteSize, Losses, Walking, ShapeFor, SizesFor, RowsOf;
      WalkNext(requests, batchn, i, shape0, batchOffset0);
      shape, batchOffset := shape0, batchOffset0;
      w := FlushGap(t, offset, w0);
      ghost var live, f := resp.live, dev.refusals;
      OnlyLosses(old(resp.live), live, old(dev.refusals), f, iset{});
      if firstDimBatching {
        CheckBatch(i, batchOffset + requests[i].shape[0], batchn[0], w);
        LossesJoin(old(resp.live), live, resp.live, old(dev.refusals), f, dev.refusals, iset{},
                   if BatchTooSmall(requests, batchn, i + 1) then iset{i} else iset{});
        OnlyLosses(live, resp.live, f, dev.refusals, if BatchTooSmall(requests, batchn, i + 1) then iset{i} else iset{});
        NoneAdded(if BatchTooSmall(requests, batchn, i + 1) then iset{i} else iset{});
        shape := shape[0 := requests[i].shape[0]];
        batchOffset := batchOffset + requests[i].shape[0];
      }
      size := GetByteSize(typeSize, shape);
      if resp.live[i] {
        SliceInside(requests, typeSize, batchn, firstDimBatching, i, t, r.inputs);
      }
    }

    /** Finds the slice of response i and gives it to the response. */
    method SliceOutput(name: string, typeSize: nat, batchn: Shape, t: Loc, requests: seq<RequestInfo>, i: nat,
                       offset: nat, usePinned: MemoryType, shape0: Shape, batchOffset0: int, ghost w0: Tally)
      returns (shape: Shape, batchOffset: int, size: nat, ghost w: Tally)
      requires Cutting(w0) && t == w0.cut.t && i == |w0.slots| < |requests| == count && |resp.live| == count
      requires Splittable(requests, typeSize, batchn, firstDimBatching) && w0.lo <= dev.nextSerial
      requires w0.cut.sizes == SizesFor(requests, typeSize, batchn, firstDimBatching)
      requires w0.cut.wants == Wanting(requests, name) && usePinned == UsePinned(t)
      requires offset == SumTo(w0.cut.sizes, i)
      requires Walking(requests, batchn, i, shape0, batchOffset0)
      requires AnyLive(resp.live) ==> Within(t, TensorSize(requests, typeSize, batchn, firstDimBatching), r.inputs)
      modifies dev`mem, dev`stream, dev`issued, dev`refusals, dev`nextSerial, resp, this`r, this`obls, this`deferred, this`inUse
      modifies this`late, this`again, this`needSync, this`pinnedSize, this`pinnedOffset, this`pinnedOutputs
      ensures Cutting(w) && |w.slots| == i + 1 && w == w0.(slots := w.slots, obs := w.obs) && |resp.live| == count
      ensures Walking(requests, batchn, i + 1, shape, batchOffset) && size == w0.cut.sizes[i]
      ensures r.inputs == old(r.inputs) && dev.nextSerial >= old(dev.nextSerial)
      ensures forall ob | ob in old(obls) :: ob in obls
      ensures Losses(old(resp.live), resp.live, old(dev.refusals), dev.refusals,
                     if BatchTooSmall(requests, batchn, i + 1) then iset{i} else iset{})
      ensures BatchTooSmall(requests, batchn, i + 1) ==> !resp.live[i]
      ensures !pinnedEnabled ==> deferred == old(deferred) && again == old(again)
      ensures LostKnown(old(again))
    {
      hide Cutting, Within, Answering, Fixed, TensorSize, Walking, SumTo, BatchTooSmall, RowsOf, Losses, SizesFor, UsePinned;
      shape, batchOffset, size, w := NextSlice(requests, typeSize, batchn, i, t, offset, shape0, batchOffset0, w0);
      ghost var live, f := resp.live, dev.refusals;
      OnlyLosses(old(resp.live), live, old(dev.refusals), f, if BatchTooSmall(requests, batchn, i + 1) then iset{i} else iset{});
      w := CutOutput(i, name, requests[i].outputs, size, t, offset, usePinned, w);
      LossesJoin(old(resp.live), live, resp.live, old(dev.refusals), f, dev.refusals,
                 if BatchTooSmall(requests, batchn, i + 1) then iset{i} else iset{}, iset{});
      OnlyLosses(live, resp.live, f, dev.refusals, iset{});
      NoneAdded(if BatchTooSmall(requests, batchn, i + 1) then iset{i} else iset{});
    }

    /** Finds the slice of response i and gives it to the response as its state. */
    method SliceState(typeSize: nat, batchn: Shape, t: Loc, requests: seq<RequestInfo>, i: nat, offset: nat,
                      usePinned: MemoryType, shape0: Shape, batchOffset0: int, states0: seq<nat>, ghost w0: Tally)
      returns (shape: Shape, batchOffset: int, size: nat, states: seq<nat>, ghost w: Tally)
      requires Cutting(w0) && t == w0.cut.t && i == |w0.slots| < |requests| == count && |resp.live| == count
      requires Splittable(requests, typeSize, batchn, firstDimBatching) && w0.lo <= dev.nextSerial
      requires w0.cut.sizes == SizesFor(requests, typeSize, batchn, firstDimBatching)
      requires w0.cut.wants == AllWanting(count) && Created(states0, resp.live, i) && usePinned == UsePinned(t)
      requires offset == SumTo(w0.cut.sizes, i)
      requires Walking(requests, batchn, i, shape0, batchOffset0)
      requires AnyLive(resp.live) ==> Within(t, TensorSize(requests, typeSize, batchn, firstDimBatching), r.inputs)
      modifies dev`mem, dev`stream, dev`issued, dev`refusals, dev`nextSerial, resp, this`r, this`obls, this`deferred, this`inUse
      modifies this`late, this`again, this`needSync, this`pinnedSize, this`pinnedOffset, this`pinnedOutputs
      ensures Cutting(w) && |w.slots| == i + 1 && w == w0.(slots := w.slots, obs := w.obs) && |resp.live| == count
      ensures Walking(requests, batchn, i + 1, shape, batchOffset) && size == w0.cut.sizes[i]
      ensures r.inputs == old(r.inputs) && dev.nextSerial >= old(dev.nextSerial)
      ensures forall ob | ob in old(obls) :: ob in obls
      ensures Losses(old(resp.live), resp.live, old(dev.refusals), dev.refusals,
                     if BatchTooSmall(requests, batchn, i + 1) then iset{i} else iset{})
      ensures BatchTooSmall(requests, batchn, i + 1) ==> !resp.live[i]
      ensures !pinnedEnabled ==> deferred == old(deferred) && again == old(again)
      ensures LostKnown(old(again))
      ensures Created(states, resp.live, i + 1)
    {
      hide Cutting, Within, Answering, Fixed, TensorSize, Walking, SumTo, BatchTooSmall, RowsOf, Losses, SizesFor, UsePinned;
      hide Created;
      shape, batchOffset, size, w := NextSlice(requests, typeSize, batchn, i, t, offset, shape0, batchOffset0, w0);
      ghost var live, f := resp.live, dev.refusals;
      OnlyLosses(old(resp.live), live, old(dev.refusals), f, if BatchTooSmall(requests, batchn, i + 1) then iset{i} else iset{});
      StillCreated(states0, old(resp.live), live, i);
      var created;
      created, w := CutState(i, size, t, offset, usePinned, w);
      LossesJoin(old(resp.live), live, resp.live, old(dev.refusals), f, dev.refusals,
                 if BatchTooSmall(requests, batchn, i + 1) then iset{i} else iset{}, iset{});
      OnlyLosses(live, resp.live, f, dev.refusals, iset{});
      NoneAdded(if BatchTooSmall(requests, batchn, i + 1) then iset{i} else iset{});
      CreatedNext(states0, live, resp.live, i, created);
      states := if created then states0 + [i] else states0;
    }

    /** Splits an output tensor over the responses.  The caller's shape vector is left
        with the batch size of the last request. */
    method ProcessTensor(name: string, typeSize: nat, batchn: Shape, t: Loc, requests: seq<RequestInfo>)
      returns (shape: Shape, ghost slots: seq<Slot>)
      requires Idle() && |requests| == count && Splittable(requests, typeSize, batchn, firstDimBatching)
      requires AnyLive(resp.live) ==> Within(t, TensorSize(requests, typeSize, batchn, firstDimBatching), r.inputs)
      modifies this, dev`mem, dev`stream, dev`issued, dev`refusals, dev`nextSerial, dev`marked, resp
      ensures Idle() && r.inputs == old(r.inputs) && dev.nextSerial >= old(dev.nextSerial)
      ensures (forall ob | ob in old(obls) :: ob in obls) && |slots| == count == |resp.live|
      ensures Answering(Cut(t, SizesFor(requests, typeSize, batchn, firstDimBatching), Wanting(requests, name)), slots,
                        resp.live, obls, old(r.dests), r.dests, old(dev.nextSerial), dev.nextSerial)
      ensures !pinnedEnabled ==>
                AllIssued(old(dev.issued), dev.issued,
                          Cut(t, SizesFor(requests, typeSize, batchn, firstDimBatching), Wanting(requests, name)),
                          slots, resp.live)
      ensures Losses(old(resp.live), resp.live, old(dev.refusals), dev.refusals, Short(requests, batchn, count))
      ensures forall i | 0 <= i < count && BatchTooSmall(requests, batchn, i + 1) :: !resp.live[i]
      ensures shape == ShapeAfter(requests, batchn, count)
      ensures shape == if firstDimBatching && count > 0 then batchn[0 := requests[count - 1].shape[0]] else batchn
      ensures needSync ==> old(needSync) || SomeStreams(slots, t)
      ensures !dev.refusals.any ==> needSync == (old(needSync) || SomeStreams(slots, t))
      ensures !pinnedEnabled ==> deferred == old(deferred) && again == old(again)
      ensures LostKnown(old(again)) && finished == old(finished)
    {
      hide Idle, Cutting, Within, Answering, Fixed, TensorSize, Walking, SumTo, BatchTooSmall, RowsOf;
      hide Losses, Short, ShapeAfter, SomeStreams, SizesFor, Wanting, UsePinned;
      ghost var cut := Cut(t, SizesFor(requests, typeSize, batchn, firstDimBatching), Wanting(requests, name));
      var usePinned, batchOffset, offset, size, i := UsePinned(t), 0, 0, 0, 0;
      shape := batchn;
      StartOfWalk(requests, batchn, cut.sizes);
      NoLosses(resp.live, dev.refusals);
      ghost var w := BeginCut(cut);
      while i < count
        invariant i == |w.slots| <= count
        invariant w == Tally(cut, w.slots, w.obs, old(r.dests), old(dev.nextSerial), old(needSync), old(dev.issued))
        invariant finished == old(finished)
        invariant Cutting(w) && (!pinnedEnabled ==> deferred == old(deferred) && again == old(again))
        invariant LostKnown(old(again))
        invariant |resp.live| == count && offset == SumTo(cut.sizes, i)
        invariant Walking(requests, batchn, i, shape, batchOffset)
        invariant r.inputs == old(r.inputs) && dev.nextSerial >= old(dev.nextSerial)
        invariant forall ob | ob in old(obls) :: ob in obls
        invariant Losses(old(resp.live), resp.live, old(dev.refusals), dev.refusals, Short(requests, batchn, i))
        invariant forall k | 0 <= k < i && BatchTooSmall(requests, batchn, k + 1) :: !resp.live[k]
      {
        ghost var live, f := resp.live, dev.refusals;
        OnlyLosses(old(resp.live), live, old(dev.refusals), f, Short(requests, batchn, i));
        shape, batchOffset, size, w := SliceOutput(name, typeSize, batchn, t, requests, i, offset, usePinned, shape,
                                                   batchOffset, w);
        SliceLoss(old(resp.live), live, resp.live, old(dev.refusals), f, dev.refusals, requests, batchn, i);
        WalkOn(requests, batchn, cut.sizes, i);
        offset := offset + size;
        i := i + 1;
      }
      ghost var live, f := resp.live, dev.refusals;
      EndCut(t, w);
      LossesJoin(old(resp.live), live, resp.live, old(dev.refusals), f, dev.refusals, Short(requests, batchn, count), iset{});
      OnlyLosses(live, resp.live, f, dev.refusals, iset{});
      WalkEnds(requests, batchn, shape, batchOffset);
      slots := w.slots;
    }

    /** A slice is found, and its response lost if the batch has too few rows. */
    lemma {:induction false} SliceLoss(live0: seq<bool>, live1: seq<bool>, live2: seq<bool>, f0: Refusals, f1: Refusals,
                                       f2: Refusals, requests: seq<RequestInfo>, batchn: Shape, i: nat)
      requires i < |requests| && batchn != []
      requires firstDimBatching ==> forall k | 0 <= k < |requests| :: requests[k].shape != []
      requires Losses(live0, live1, f0, f1, Short(requests, batchn, i))
      requires Losses(live1, live2, f1, f2, if BatchTooSmall(requests, batchn, i + 1) then iset{i} else iset{})
      ensures Losses(live0, live2, f0, f2, Short(requests, batchn, i + 1)) && OnlyNulled(live1, live2) && f1.UpTo(f2)
    {
      hide Short, BatchTooSmall;
      ShortStep(requests, batchn, i);
      LossesJoin(live0, live1, live2, f0, f1, f2, Short(requests, batchn, i),
                 if BatchTooSmall(requests, batchn, i + 1) then iset{i} else iset{});
    }

    lemma {:induction false} WalkEnds(requests: seq<RequestInfo>, batchn: Shape, shape: Shape, batchOffset: int)
      requires batchn != [] && (firstDimBatching ==> forall k | 0 <= k < |requests| :: requests[k].shape != [])
      requires Walking(requests, batchn, |requests|, shape, batchOffset)
      ensures shape == ShapeAfter(requests, batchn, |requests|)
    {}

    lemma {:induction false} StartOfWalk(requests: seq<RequestInfo>, batchn: Shape, sizes: seq<nat>)
      requires batchn != [] && (firstDimBatching ==> forall k | 0 <= k < |requests| :: requests[k].shape != [])
      ensures Walking(requests, batchn, 0, batchn, 0) && SumTo(sizes, 0) == 0 && Short(requests, batchn, 0) == iset{}
    {}

    lemma {:induction false} WalkOn(requests: seq<RequestInfo>, batchn: Shape, sizes: seq<nat>, i: nat)
      requires i < |requests| == |sizes| && batchn != []
      requires firstDimBatching ==> forall k | 0 <= k < |requests| :: requests[k].shape != [] && requests[k].shape[0] >= 0
      ensures SumTo(sizes, i + 1) == SumTo(sizes, i) + sizes[i]
    {}

    /** Splits a state tensor over the responses; states holds the requests for
        which a state was created. */
    method ProcessStateTensor(typeSize: nat, batchn: Shape, t: Loc, requests: seq<RequestInfo>)
      returns (shape: Shape, states: seq<nat>, ghost slots: seq<Slot>)
      requires Idle() && |requests| == count && Splittable(requests, typeSize, batchn, firstDimBatching)
      requires AnyLive(resp.live) ==> Within(t, TensorSize(requests, typeSize, batchn, firstDimBatching), r.inputs)
      modifies this, dev`mem, dev`stream, dev`issued, dev`refusals, dev`nextSerial, dev`marked, resp
      ensures Idle() && r.inputs == old(r.inputs) && dev.nextSerial >= old(dev.nextSerial)
      ensures (forall ob | ob in old(obls) :: ob in obls) && |slots| == count == |resp.live|
      ensures Answering(Cut(t, SizesFor(requests, typeSize, batchn, firstDimBatching), AllWanting(count)), slots,
                        resp.live, obls, old(r.dests), r.dests, old(dev.nextSerial), dev.nextSerial)
      ensures !pinnedEnabled ==>
                AllIssued(old(dev.issued), dev.issued,
                          Cut(t, SizesFor(requests, typeSize, batchn, firstDimBatching), AllWanting(count)),
                          slots, resp.live)
      ensures Losses(old(resp.live), resp.live, old(dev.refusals), dev.refusals, Short(requests, batchn, count))
      ensures forall i | 0 <= i < count && BatchTooSmall(requests, batchn, i + 1) :: !resp.live[i]
      ensures shape == ShapeAfter(requests, batchn, count) && Created(states, resp.live, count)
      ensures shape == if firstDimBatching && count > 0 then batchn[0 := requests[count - 1].shape[0]] else batchn
      ensures needSync ==> old(needSync) || SomeStreams(slots, t)
      ensures !dev.refusals.any ==> needSync == (old(needSync) || SomeStreams(slots, t))
      ensures !pinnedEnabled ==> deferred == old(deferred) && again == old(again)
      ensures LostKnown(old(again)) && finished == old(finished)
    {
      hide Idle, Cutting, Within, Answering, Fixed, TensorSize, Walking, SumTo, BatchTooSmall, RowsOf, Created, AllWanting;
      hide Losses, Short, ShapeAfter, SomeStreams, SizesFor, Wanting, UsePinned;
      ghost var cut := Cut(t, SizesFor(requests, typeSize, batchn, firstDimBatching), AllWanting(count));
      var usePinned, batchOffset, offset, size, i := UsePinned(t), 0, 0, 0, 0;
      shape := batchn;
      StartOfWalk(requests, batchn, cut.sizes);
      NoLosses(resp.live, dev.refusals);
      ghost var w := BeginCut(cut);
      states := [];
      assert Created(states, resp.live, 0) by { NoneCreated(resp.live); }
      while i < count
        invariant i == |w.slots| <= count
        invariant w == Tally(cut, w.slots, w.obs, old(r.dests), old(dev.nextSerial), old(needSync), old(dev.issued))
        invariant finished == old(finished)
        invariant Cutting(w) && (!pinnedEnabled ==> deferred == old(deferred) && again == old(again))
        invariant LostKnown(old(again))
        invariant |resp.live| == count && offset == SumTo(cut.sizes, i)
        invariant Walking(requests, batchn, i, shape, batchOffset)
        invariant r.inputs == old(r.inputs) && dev.nextSerial >= old(dev.nextSerial)
        invariant forall ob | ob in old(obls) :: ob in obls
        invariant Losses(old(resp.live), resp.live, old(dev.refusals), dev.refusals, Short(requests, batchn, i))
        invariant forall k | 0 <= k < i && BatchTooSmall(requests, batchn, k + 1) :: !resp.live[k]
        invariant Created(states, resp.live, i)
      {
        ghost var live, f := resp.live, dev.refusals;
        OnlyLosses(old(resp.live), live, old(dev.refusals), f, Short(requests, batchn, i));
        shape, batchOffset, size, states, w := SliceState(typeSize, batchn, t, requests, i, offset, usePinned, shape,
                                                          batchOffset, states, w);
        SliceLoss(old(resp.live), live, resp.live, old(dev.refusals), f, dev.refusals, requests, batchn, i);
        WalkOn(requests, batchn, cut.sizes, i);
        offset := offset + size;
        i := i + 1;
      }
      ghost var live, f := resp.live, dev.refusals;
      EndCut(t, w);
      LossesJoin(old(resp.live), live, resp.live, old(dev.refusals), f, dev.refusals, Short(requests, batchn, count), iset{});
      OnlyLosses(live, resp.live, f, dev.refusals, iset{});
      WalkEnds(requests, batchn, shape, batchOffset);
      StillCreated(states, live, resp.live, count);
      slots := w.slots;
    }

    /** Finds the slice of response i, whose shape is that of the output filled in, and
        gives it to the response. */
    method SliceBatchOutput(name: string, typeSize: nat, out: Shape, t: Loc, requests: seq<RequestInfo>, i: nat,
                            offset: nat, usePinned: MemoryType, ghost w0: Tally)
      returns (size: nat, ghost w: Tally)
      requires Cutting(w0) && t == w0.cut.t && i == |w0.slots| < |requests| == count && |resp.live| == count
      requires Scatterable(requests, typeSize, out) && w0.lo <= dev.nextSerial
      requires w0.cut.sizes == ScatterSizes(requests, typeSize, out) && w0.cut.wants == Wanting(requests, name)
      requires usePinned == UsePinned(t) && offset == SumTo(w0.cut.sizes, i)
      requires AnyLive(resp.live) ==> Within(t, SumTo(w0.cut.sizes, count), r.inputs)
      modifies dev`mem, dev`stream, dev`issued, dev`refusals, dev`nextSerial, resp, this`r, this`obls, this`deferred
      modifies this`inUse, this`late, this`again, this`needSync
      modifies this`pinnedSize, this`pinnedOffset, this`pinnedOutputs
      ensures Cutting(w) && |w.slots| == i + 1 && w == w0.(slots := w.slots, obs := w.obs) && |resp.live| == count
      ensures size == w0.cut.sizes[i] && r.inputs == old(r.inputs) && dev.nextSerial >= old(dev.nextSerial)
      ensures forall ob | ob in old(obls) :: ob in obls
      ensures Losses(old(resp.live), resp.live, old(dev.refusals), dev.refusals, iset{})
      ensures !pinnedEnabled ==> deferred == old(deferred) && again == old(again)
      ensures LostKnown(old(again))
    {
      hide Cutting, Within, Answering, Fixed, SumTo, Losses, UsePinned;
      w := FlushGap(t, offset, w0);
      ghost var live, f := resp.live, dev.refusals;
      OnlyLosses(old(resp.live), live, old(dev.refusals), f, iset{});
      assert |live| == count by { CuttingCount(w); }
      var shape := OverrideShape(out, requests[i].shape);
      size := GetByteSize(typeSize, shape);
      if resp.live[i] {
        PartInside(w.cut.sizes, i, t, r.inputs);
      }
      w := CutOutput(i, name, requests[i].outputs, size, t, offset, usePinned, w);
      LossesJoin(old(resp.live), live, resp.live, old(dev.refusals), f, dev.refusals, iset{}, iset{});
      CuttingCount(w);
    }

    lemma {:induction false} CuttingCount(w: Tally)
      requires Cutting(w)
      ensures |resp.live| == count
    {}

    /** Splits a batch output, whose unknown dimensions are those of an input. */
    method ProcessBatchOutput(name: string, typeSize: nat, out: Shape, t: Loc, requests: seq<RequestInfo>)
      returns (ghost slots: seq<Slot>)
      requires Idle() && |requests| == count && Scatterable(requests, typeSize, out)
      requires AnyLive(resp.live) ==> Within(t, SumTo(ScatterSizes(requests, typeSize, out), count), r.inputs)
      modifies this, dev`mem, dev`stream, dev`issued, dev`refusals, dev`nextSerial, dev`marked, resp
      ensures Idle() && r.inputs == old(r.inputs) && dev.nextSerial >= old(dev.nextSerial)
      ensures (forall ob | ob in old(obls) :: ob in obls) && |slots| == count == |resp.live|
      ensures Answering(Cut(t, ScatterSizes(requests, typeSize, out), Wanting(requests, name)), slots,
                        resp.live, obls, old(r.dests), r.dests, old(dev.nextSerial), dev.nextSerial)
      ensures !pinnedEnabled ==>
                AllIssued(old(dev.issued), dev.issued, Cut(t, ScatterSizes(requests, typeSize, out), Wanting(requests, name)),
                          slots, resp.live)
      ensures Losses(old(resp.live), resp.live, old(dev.refusals), dev.refusals, iset{})
      ensures needSync ==> old(needSync) || SomeStreams(slots, t)
      ensures !dev.refusals.any ==> needSync == (old(needSync) || SomeStreams(slots, t))
      ensures !pinnedEnabled ==> deferred == old(deferred) && again == old(again)
      ensures LostKnown(old(again)) && finished == old(finished)
    {
      hide Idle, Cutting, Within, Answering, Fixed, SumTo, Losses, SomeStreams, AllIssued, ScatterSizes, Wanting, UsePinned;
      NoLosses(resp.live, dev.refusals);
      ghost var cut := Cut(t, ScatterSizes(requests, typeSize, out), Wanting(requests, name));
      var usePinned, offset, i := UsePinned(t), 0, 0;
      StartOfTensor(cut.sizes);
      ghost var w := BeginCut(cut);
      while i < count
        invariant i == |w.slots| <= count
        invariant w == Tally(cut, w.slots, w.obs, old(r.dests), old(dev.nextSerial), old(needSync), old(dev.issued))
        invariant finished == old(finished)
        invariant Cutting(w) && (!pinnedEnabled ==> deferred == old(deferred) && again == old(again))
        invariant LostKnown(old(again))
        invariant |resp.live| == count && offset == SumTo(cut.sizes, i)
        invariant r.inputs == old(r.inputs) && dev.nextSerial >= old(dev.nextSerial)
        invariant forall ob | ob in old(obls) :: ob in obls
        invariant Losses(old(resp.live), resp.live, old(dev.refusals), dev.refusals, iset{})
      {
        ghost var live, f := resp.live, dev.refusals;
        OnlyLosses(old(resp.live), live, old(dev.refusals), f, iset{});
        var size;
        size, w := SliceBatchOutput(name, typeSize, out, t, requests, i, offset, usePinned, w);
        LossesJoin(old(resp.live), live, resp.live, old(dev.refusals), f, dev.refusals, iset{}, iset{});
        AlongTensor(cut.sizes, i);
        offset := offset + size;
        i := i + 1;
      }
      ghost var live, f := resp.live, dev.refusals;
      EndCut(t, w);
      LossesJoin(old(resp.live), live, resp.live, old(dev.refusals), f, dev.refusals, iset{}, iset{});
      slots := w.slots;
    }

    // -------------------------------------------------------------------------
    // Finalize
    // -------------------------------------------------------------------------

    /** The view in which only the deferred copies in plan are left. */
    ghost function Left(plan: seq<DeferredPinned>): View
      reads this`deferred, this`r, dev`mem, dev`stream, resp`live
    {
      Now().(deferred := plan)
    }

    /** What is left of the deferred copies can be performed in order. */
    ghost predicate Finalizing(plan: seq<DeferredPinned>)
      reads this`deferred, this`r, this`obls, this`inUse, this`needSync, dev, resp
    {
      && Left(plan).Ok(orig, obls, inUse) && Left(plan).Pending(orig, obls, []) && Healthy(inUse)
      && InTurn(plan, dev.stream)
      && (dev.stream != [] ==> needSync) && (needSync ==> dev.gpuEnabled)
    }

    /** Waits for everything on the stream, if a deferred copy needs it. */
    method SynchronizeForDeferred()
      requires Idle()
      modifies dev`mem, dev`stream, dev`waits, dev`marked, this`needSync
      ensures Finalizing(Flat(deferred))
      ensures deferred == [] && needSync && useEvent ==> dev.marked == |dev.stream|
      ensures if deferred == [] then needSync == old(needSync) && dev.waits == old(dev.waits) else !needSync
    {
      hide View.Ok, View.Pending, Flat, Single;
      ghost var v := Now();
      FlatNothing();
      FlatSingle(deferred);
      if dev.gpuEnabled && deferred != [] && needSync {
        if useEvent {
          assert dev.stream[..|dev.stream|] == dev.stream;
          dev.SynchronizeEvent();
        } else {
          dev.SynchronizeStream();
        }
        needSync := false;
        Synchronized(v, Now(), orig, obls, inUse, []);
      }
    }

    /** Performs the first deferred copy that is left, or fails its response. */
    method FinalizeOne(c: Copy, out: Chunk, ghost plan: seq<DeferredPinned>) returns (ghost t: Try)
      requires Finalizing(plan) && plan != [] && plan[0] == DeferredPinned(c, [out])
      requires c.src.space.Staging? && c.dst == out.ptr && LateLogged()
      modifies dev`mem, dev`stream, dev`issued, dev`refusals, resp, this`needSync, this`late
      ensures Finalizing(plan[1..]) && LateLogged()
      ensures Losses(old(resp.live), resp.live, old(dev.refusals), dev.refusals, iset{})
      ensures needSync ==> old(needSync) || dev.UsesStream(c, copyOnStream)
      ensures !dev.refusals.any ==> needSync == (old(needSync) || dev.UsesStream(c, copyOnStream))
      ensures t.response == out.first < |resp.live| && t.copy == c && TriedOne(t, DeferredPinned(c, [out]))
      ensures !t.issued ==> dev.refusals.any
      ensures dev.issued == old(dev.issued) + if t.issued then [HowIssued(c, dev.gpuEnabled, copyOnStream)] else []
      ensures resp.live == if t.issued then old(resp.live) else NullRange(old(resp.live), t.response, t.response)
      ensures late == old(late) + if t.issued && !old(resp.live)[t.response] then iset{t.response} else iset{}
    {
      hide View.Ok, View.Pending, IndependentOfAll, DeferredDone, Flat, Losses, Single, Finalizing, NullRange, Apply;
      hide LateLogged, AllNull;
      ghost var v := Left(plan);
      BeforeOne(plan, out);
      ghost var how;
      var cudaUsed;
      cudaUsed, how := CopyOrFail(c, out.first);
      needSync := needSync || cudaUsed;
      t := Try(out.first, c, !how.Refused?);
      DeferredDoneNow(v, Left(plan[1..]), plan, how, out);
      AfterOne(v, plan, how);
    }

    /** The first copy that is left can be performed. */
    lemma {:induction false} BeforeOne(plan: seq<DeferredPinned>, out: Chunk)
      requires Finalizing(plan) && plan != [] && plan[0].requests == [out]
      ensures Left(plan).Ok(orig, obls, inUse) && Left(plan).Pending(orig, obls, []) && Healthy(inUse)
      ensures InTurn(plan, dev.stream) && Own(out) && out.first < |resp.live|
      ensures (dev.stream != [] ==> needSync) && (needSync ==> dev.gpuEnabled)
    {
      hide View.Pending, Independent;
      assert plan[0..] == plan;
      NextDeferred(Left(plan), plan, 0, orig, obls, inUse);
      assert out in plan[0].requests;
    }

    /** Every copy of the plan may follow those of the stream, and belongs to one response. */
    ghost predicate InTurn(plan: seq<DeferredPinned>, stream: seq<Copy>) {
      forall d | d in plan :: IndependentOfAll(d.copy, stream) && forall c | c in d.requests :: Own(c)
    }

    /** And when it has been, the rest can. */
    lemma {:induction false} AfterOne(v: View, plan: seq<DeferredPinned>, how: Outcome)
      requires plan != [] && v.deferred == plan && InTurn(plan, v.stream)
      requires v.Ok(orig, obls, inUse) && v.Pending(orig, obls, []) && DeferredDone(v, Left(plan[1..]), plan[0], how)
      requires Healthy(inUse) && (dev.stream != [] ==> needSync) && (needSync ==> dev.gpuEnabled)
      ensures Finalizing(plan[1..])
    {
      hide View.Ok, View.Pending, Independent;
      assert plan[0..] == plan;
      NextDeferred(v, plan, 0, orig, obls, inUse);
      DeferredStep(v, Left(plan[1..]), orig, obls, inUse, plan[0], how);
    }

    /** One of the first n parts of the slice goes through the stream. */
    predicate SliceStreams(d: DeferredOutputs, n: nat)
      requires n <= |d.outs|
    {
      exists j | 0 <= j < n :: dev.gpuEnabled && (copyOnStream || d.outs[j].ptr.space.Type() == Gpu)
    }

    /** So does one of the first n slices. */
    predicate DeferredStreams(ds: seq<DeferredOutputs>, n: nat)
      requires n <= |ds|
    {
      exists i | 0 <= i < n :: SliceStreams(ds[i], |ds[i].outs|)
    }

    /** Performs the deferred copies of one slice. */
    method FinalizeSlice(d: DeferredOutputs, ghost plan0: seq<DeferredPinned>, ghost rest: seq<DeferredPinned>)
      returns (ghost tries: seq<Try>)
      requires Finalizing(plan0) && plan0 == OutputCopies(d) + rest && LateLogged()
      modifies dev`mem, dev`stream, dev`issued, dev`refusals, resp, this`needSync, this`late
      ensures Finalizing(rest) && LateLogged()
      ensures Losses(old(resp.live), resp.live, old(dev.refusals), dev.refusals, iset{})
      ensures needSync ==> old(needSync) || SliceStreams(d, |d.outs|)
      ensures !dev.refusals.any ==> needSync == (old(needSync) || SliceStreams(d, |d.outs|))
      ensures Tried(tries, OutputCopies(d), dev.gpuEnabled, copyOnStream, old(dev.issued), dev.issued)
      ensures LeftBy(tries, old(resp.live), resp.live)
      ensures late == old(late) + LateAmong(tries, old(resp.live))
    {
      hide Finalizing, OutputCopies, Sizes, Losses, Tried, LeftBy, LateAmong, IssuedTo, LateLogged, TriedOne, HowIssued;
      NoLosses(resp.live, dev.refusals);
      NoCopies(d, rest);
      NoTries(resp.live, late);
      TriedNothing(dev.gpuEnabled, copyOnStream, dev.issued);
      assert OutputCopies(d)[..0] == [];
      tries := [];
      assert d.outs[..0] == [];
      var offset, j := 0, 0;
      while j < |d.outs|
        invariant j <= |d.outs| && offset == Sizes(d.outs[..j])
        invariant Finalizing(OutputCopies(d)[j..] + rest)
        invariant Losses(old(resp.live), resp.live, old(dev.refusals), dev.refusals, iset{})
        invariant needSync ==> old(needSync) || SliceStreams(d, j)
        invariant !dev.refusals.any ==> needSync == (old(needSync) || SliceStreams(d, j))
        invariant Tried(tries, OutputCopies(d)[..j], dev.gpuEnabled, copyOnStream, old(dev.issued), dev.issued)
        invariant LeftBy(tries, old(resp.live), resp.live) && |resp.live| == |old(resp.live)| && LateLogged()
        invariant late == old(late) + LateAmong(tries, old(resp.live))
      {
        ghost var live, f, ops := resp.live, dev.refusals, dev.issued;
        NextCopy(d, j, rest);
        ghost var t;
        t := FinalizeOne(Copy(StagingAt(d.serial, offset), d.outs[j].ptr, d.outs[j].size), d.outs[j],
                         OutputCopies(d)[j..] + rest);
        TriedNext(tries, OutputCopies(d)[..j], dev.gpuEnabled, copyOnStream, old(dev.issued), ops, dev.issued, t,
                  OutputCopies(d)[j]);
        NextTry(tries, t, old(resp.live), live, resp.live);
        assert OutputCopies(d)[..j + 1] == OutputCopies(d)[..j] + [OutputCopies(d)[j]];
        tries := tries + [t];
        LossesJoin(old(resp.live), live, resp.live, old(dev.refusals), f, dev.refusals, iset{}, iset{});
        offset := offset + d.outs[j].size;
        j := j + 1;
      }
      assert OutputCopies(d)[..j] == OutputCopies(d);
    }

    /** Finishes all scatters: performs the deferred copies.  When it returns false
        nothing is outstanding; when it returns true, every response has its slices
        as soon as the stream (or the event) has been waited for.  With nothing
        deferred it asks for a wait exactly if one was needed before; else exactly if a
        deferred copy goes through the stream, unless copies are refused. */
    method Finalize() returns (sync: bool, ghost tries: seq<Try>)
      requires Idle()
      modifies dev`mem, dev`stream, dev`issued, dev`waits, dev`refusals, dev`marked, resp
      modifies this`needSync, this`deferred, this`late, this`finished
      ensures Idle() && resp.Valid() && |resp.live| == count
      ensures Losses(old(resp.live), resp.live, old(dev.refusals), dev.refusals, iset{})
      ensures forall ob | ob in obls :: Settled(ob, dev.Settled(), orig, resp.live)
      ensures Untouched(dev.Settled(), orig, r)
      ensures (!sync ==> dev.stream == []) && (sync ==> dev.gpuEnabled)
      ensures sync && useEvent ==> dev.marked == |dev.stream|
      ensures old(deferred) == [] ==> sync == old(needSync)
      ensures old(deferred) != [] && sync ==> DeferredStreams(old(deferred), |old(deferred)|)
      ensures old(deferred) != [] && !dev.refusals.any ==> sync == DeferredStreams(old(deferred), |old(deferred)|)
      ensures Tried(tries, Flat(old(deferred)), dev.gpuEnabled, copyOnStream, old(dev.issued), dev.issued)
      ensures LeftBy(tries, old(resp.live), resp.live)
      ensures finished == old(finished) + LateAmong(tries, old(resp.live))
      ensures old(deferred) == [] ==> dev.issued == old(dev.issued) && dev.waits == old(dev.waits)
    {
      hide View.Ok, View.Pending, Settled, Losses, DeferredStreams, Drain, Tried, LeftBy, LateAmong, Idle;
      hide LateTold, Untouched;
      tries := PerformDeferred();
      AllSettled(Left([]), orig, obls, inUse);
      if dev.gpuEnabled && deferred != [] && needSync && useEvent {
        dev.RecordEvent();
      }
      deferred := [];
      sync := needSync;
      AtRestAgain();
    }

    /** Waits if need be, and performs the deferred copies. */
    method PerformDeferred() returns (ghost tries: seq<Try>)
      requires Idle()
      modifies dev`mem, dev`stream, dev`issued, dev`waits, dev`refusals, dev`marked, resp
      modifies this`needSync, this`late, this`finished
      ensures Finalizing([]) && LateTold() && pinnedSize == 0 == pinnedOffset && pinnedOutputs == []
      ensures Losses(old(resp.live), resp.live, old(dev.refusals), dev.refusals, iset{})
      ensures deferred == [] && needSync && useEvent ==> dev.marked == |dev.stream|
      ensures deferred == [] ==> needSync == old(needSync)
      ensures deferred != [] && needSync ==> DeferredStreams(deferred, |deferred|)
      ensures deferred != [] && !dev.refusals.any ==> needSync == DeferredStreams(deferred, |deferred|)
      ensures Tried(tries, Flat(deferred), dev.gpuEnabled, copyOnStream, old(dev.issued), dev.issued)
      ensures LeftBy(tries, old(resp.live), resp.live)
      ensures finished == old(finished) + LateAmong(tries, old(resp.live))
      ensures deferred == [] ==> dev.issued == old(dev.issued) && dev.waits == old(dev.waits)
    {
      hide View.Ok, View.Pending, Independent, IndependentOfAll, Flat, Losses, DeferredStreams, Drain, Idle;
      hide Tried, LeftBy, LateAmong, IssuedTo, Sure, View.Eventual, Finalizing, LateLogged;
      AtRest();
      SynchronizeForDeferred();
      tries := FinalizeAll();
      NowFinished(late, IssuedTo(again), finished, LateAmong(tries, old(resp.live)));
      finished := finished + LateAmong(tries, old(resp.live));
    }

    lemma {:induction false} NowFinished(late: iset<nat>, a: iset<nat>, b: iset<nat>, c: iset<nat>)
      requires late == a + b + c
      ensures late == a + (b + c)
    {}

    lemma {:induction false} AtRest()
      requires Idle()
      ensures pinnedSize == 0 == pinnedOffset && pinnedOutputs == [] && LateTold()
    {}

    lemma {:induction false} AtRestAgain()
      requires Finalizing([]) && deferred == [] && (useEvent && needSync ==> dev.marked == |dev.stream|)
      requires pinnedSize == 0 == pinnedOffset && pinnedOutputs == [] && LateTold()
      ensures Idle() && resp.Valid() && |resp.live| == count
    {
      FlatNothing();
    }

    method FinalizeAll() returns (ghost tries: seq<Try>)
      requires Finalizing(Flat(deferred)) && LateLogged()
      modifies dev`mem, dev`stream, dev`issued, dev`refusals, resp, this`needSync, this`late
      ensures Finalizing([]) && LateLogged()
      ensures Losses(old(resp.live), resp.live, old(dev.refusals), dev.refusals, iset{})
      ensures deferred == [] ==> needSync == old(needSync) && dev.stream == old(dev.stream)
      ensures needSync ==> old(needSync) || DeferredStreams(deferred, |deferred|)
      ensures !dev.refusals.any ==> needSync == (old(needSync) || DeferredStreams(deferred, |deferred|))
      ensures Tried(tries, Flat(deferred), dev.gpuEnabled, copyOnStream, old(dev.issued), dev.issued)
      ensures LeftBy(tries, old(resp.live), resp.live)
      ensures late == old(late) + LateAmong(tries, old(resp.live))
      ensures deferred == [] ==> dev.issued == old(dev.issued)
    {
      hide Finalizing, Flat, Losses, SliceStreams, Tried, LeftBy, LateAmong, IssuedTo, LateLogged;
      NoLosses(resp.live, dev.refusals);
      NoTries(resp.live, late);
      TriedNothing(dev.gpuEnabled, copyOnStream, dev.issued);
      FlatNothing();
      tries := [];
      assert deferred[..0] == [];
      assert deferred[0..] == deferred;
      var i := 0;
      while i < |deferred|
        invariant i <= |deferred| && Finalizing(Flat(deferred[i..]))
        invariant Losses(old(resp.live), resp.live, old(dev.refusals), dev.refusals, iset{})
        invariant i == 0 ==> needSync == old(needSync) && dev.stream == old(dev.stream)
        invariant needSync ==> old(needSync) || DeferredStreams(deferred, i)
        invariant !dev.refusals.any ==> needSync == (old(needSync) || DeferredStreams(deferred, i))
        invariant Tried(tries, Flat(deferred[..i]), dev.gpuEnabled, copyOnStream, old(dev.issued), dev.issued)
        invariant LeftBy(tries, old(resp.live), resp.live) && LateLogged()
        invariant late == old(late) + LateAmong(tries, old(resp.live))
        invariant i == 0 ==> dev.issued == old(dev.issued)
      {
        ghost var live, f, ops := resp.live, dev.refusals, dev.issued;
        FlatNext(deferred, i);
        ghost var more;
        more := FinalizeSlice(deferred[i], Flat(deferred[i..]), Flat(deferred[i + 1..]));
        TriedBoth(tries, Flat(deferred[..i]), more, OutputCopies(deferred[i]), dev.gpuEnabled, copyOnStream,
                  old(dev.issued), ops, dev.issued);
        MoreTries(tries, more, old(resp.live), live, resp.live);
        tries := tries + more;
        LossesJoin(old(resp.live), live, resp.live, old(dev.refusals), f, dev.refusals, iset{}, iset{});
        i := i + 1;
      }
      FlatEnd(deferred);
      assert deferred[..i] == deferred;
    }
  }

  lemma {:induction false} FlatNext(ds: seq<DeferredOutputs>, i: nat)
    requires i < |ds|
    ensures Flat(ds[i..]) == OutputCopies(ds[i]) + Flat(ds[i + 1..])
    ensures Flat(ds[..i + 1]) == Flat(ds[..i]) + OutputCopies(ds[i])
  {
    assert ds[..i + 1][..i] == ds[..i];
    FlatFirst(ds[i..]);
    assert ds[i..][1..] == ds[i + 1..];
  }

  lemma {:induction false} FlatEnd(ds: seq<DeferredOutputs>)
    ensures Flat(ds[|ds|..]) == []
  {}

  lemma {:induction false} FlatNothing()
    ensures Flat([]) == []
  {}

  lemma {:induction false} StartOfTensor(sizes: seq<nat>)
    ensures SumTo(sizes, 0) == 0
  {}

  lemma {:induction false} AlongTensor(sizes: seq<nat>, i: nat)
    requires i < |sizes|
    ensures SumTo(sizes, i + 1) == SumTo(sizes, i) + sizes[i]
  {}

  /** The first planned copy has been performed, queued or refused. */
  lemma {:induction false} DeferredDoneNow(v0: View, v1: View, plan: seq<DeferredPinned>, how: Outcome, out: Chunk)
    requires plan != [] && v0.deferred == plan && v1.deferred == plan[1..] && plan[0].requests == [out]
    requires OnlyNulled(v0.live, v1.live) && v1.r == v0.r && !how.Later? && out.first == out.last
    requires how.Refused? ==> AllNull(v1.live, out.first, out.first)
    requires v1.mem == if how.AtOnce? then Apply(v0.mem, plan[0].copy) else v0.mem
    requires v1.stream == v0.stream + (if how.OnStream? then [plan[0].copy] else [])
    ensures DeferredDone(v0, v1, plan[0], how)
  {}

  lemma {:induction false} SliceOfNothing(t: Loc)
    ensures Sizes([]) == 0
  {}
}

/** The recommended backend's execute function: gathers the batch, uses the
    gathered input as the model's output, and scatters it. */
module Execute {
  import opened DeviceMemory
  import opened Devices
  import opened Responses
  import opened Delivery
  import opened InputIteration
  import opened InputBytes
  import opened GatherViews
  import opened GatherKernel
  import opened Collectors
  import opened Gather
  import opened Shapes
  import opened Responders
  import opened Scatter
  import opened Schedules
  import opened Sending

  /** One request: its input's buffers and shape, and the outputs it wants. */
  datatype RequestData = RequestData(buffers: Request, info: RequestInfo)

  function BuffersOf(requests: seq<RequestData>): (bs: seq<Request>)
    ensures |bs| == |requests| && forall i | 0 <= i < |requests| :: bs[i] == requests[i].buffers
  {
    seq(|requests|, i requires 0 <= i < |requests| => requests[i].buffers)
  }

  function InfosOf(requests: seq<RequestData>): (rs: seq<RequestInfo>)
    ensures |rs| == |requests| && forall i | 0 <= i < |requests| :: rs[i] == requests[i].info
  {
    seq(|requests|, i requires 0 <= i < |requests| => requests[i].info)
  }

  class ModelState {
    const outputName: string
    const typeSize: nat
    const maxBatchSize: int
    const nonBatchShape: Shape
    var shapeInitialized: bool
    var shape: Shape

    predicate FirstDimBatching() { maxBatchSize > 0 }

    /** The shape with its batch dimension, whose size is not known. */
    function BatchShape(): Shape {
      (if FirstDimBatching() then [WILDCARD_DIM] else []) + nonBatchShape
    }

    predicate Valid()
      reads this
    {
      && typeSize > 0 && Fixed(nonBatchShape) && BatchShape() != []
      && shape == if shapeInitialized then BatchShape() else []
    }

    constructor (outputName: string, typeSize: nat, maxBatchSize: int, nonBatchShape: Shape)
      requires typeSize > 0 && Fixed(nonBatchShape) && (nonBatchShape == [] ==> maxBatchSize > 0)
      ensures Valid() && !shapeInitialized
      ensures this.outputName == outputName && this.typeSize == typeSize
      ensures this.maxBatchSize == maxBatchSize && this.nonBatchShape == nonBatchShape
    {
      this.outputName, this.typeSize := outputName, typeSize;
      this.maxBatchSize, this.nonBatchShape := maxBatchSize, nonBatchShape;
      shapeInitialized, shape := false, [];
    }

    /** The shape is built by the first call and the same from then on: a batch dimension of
        unknown size, if the model batches, in front of the dimensions of the model. */
    method TensorShape() returns (s: Shape)
      requires Valid()
      modifies this
      ensures Valid() && s == BatchShape()
      ensures if maxBatchSize <= 0 then s == nonBatchShape
              else |s| == 1 + |nonBatchShape| && s[0] == -1 && s[1..] == nonBatchShape
      ensures maxBatchSize > 0 ==>
                forall n: nat :: GetByteSize(typeSize, s[0 := n]) == n * Shapes.Product(nonBatchShape) * typeSize
    {
      hide GetByteSize;
      RowBytes(typeSize, nonBatchShape);
      if !shapeInitialized {
        if FirstDimBatching() {
          shape := shape + [WILDCARD_DIM];
        }
        shape := shape + nonBatchShape;
        shapeInitialized := true;
      }
      s := shape;
    }
  }

  // ---------------------------------------------------------------------------
  // Requests whose input has the size its shape says
  // ---------------------------------------------------------------------------

  function InputSize(requests: seq<RequestData>, i: nat): nat
    requires i < |requests|
  {
    Total(PiecesOf(requests[i].buffers, i))
  }

  /** Every input has as many bytes as its own batch size and the model's shape
      ask for, and only an empty buffer may be null. */
  ghost predicate WellSized(requests: seq<RequestData>, typeSize: nat, batchn: Shape, firstDim: bool) {
    && Splittable(InfosOf(requests), typeSize, batchn, firstDim)
    && (forall i | 0 <= i < |requests| ::
          InputSize(requests, i) == SizesFor(InfosOf(requests), typeSize, batchn, firstDim)[i])
    && forall p | p in Flatten(BuffersOf(requests)) :: p.ptr.IsNull() ==> p.size == 0
  }

  /** That is, in terms of the model: every input has the bytes of as many rows of the
      model's own shape as its batch size says, or of one if the model does not batch. */
  ghost predicate Sized(requests: seq<RequestData>, typeSize: nat, maxBatchSize: int, nonBatchShape: Shape) {
    && (forall i | 0 <= i < |requests| ::
          var shape := requests[i].info.shape;
          && (maxBatchSize > 0 ==> shape != [] && shape[0] >= 0)
          && InputSize(requests, i) == (if maxBatchSize > 0 then shape[0] else 1) * Shapes.Product(nonBatchShape) * typeSize)
    && forall p | p in Flatten(BuffersOf(requests)) :: p.ptr.IsNull() ==> p.size == 0
  }

  lemma {:induction false} SizedWell(requests: seq<RequestData>, model: ModelState)
    requires model.Valid() && Sized(requests, model.typeSize, model.maxBatchSize, model.nonBatchShape)
    ensures WellSized(requests, model.typeSize, model.BatchShape(), model.FirstDimBatching())
  {
    hide InputSize, Flatten, BuffersOf;
    var batchn, row := model.BatchShape(), model.nonBatchShape;
    assert model.FirstDimBatching() ==> batchn[1..] == row;
    assert !model.FirstDimBatching() ==> batchn == row;
    RowBytes(model.typeSize, row);
  }

  /** Then the slices of the scatter start where the requests of the gather do. */
  lemma {:induction false} OffsetsAgree(requests: seq<RequestData>, typeSize: nat, batchn: Shape, firstDim: bool,
                                        i: nat)
    requires WellSized(requests, typeSize, batchn, firstDim) && i <= |requests|
    ensures SumTo(SizesFor(InfosOf(requests), typeSize, batchn, firstDim), i) == Offset(BuffersOf(requests), i)
  {
    hide GetByteSize, Offset, Total, Flatten, ShapeFor;
    FirstOffset(BuffersOf(requests));
    if i > 0 {
      var bs := BuffersOf(requests);
      OffsetsAgree(requests, typeSize, batchn, firstDim, i - 1);
      OffsetStep(bs, i - 1);
    }
  }

  lemma {:induction false} NullsAreEmpty(ps: seq<Piece>)
    requires forall p | p in ps :: p.ptr.IsNull() ==> p.size == 0
    ensures SizeFound(ps) == Total(ps)
    ensures Total(ps[..LeadingNulls(ps)]) == 0
    ensures Total(ps) > 0 ==> LeadingNulls(ps) < |ps|
  {
    var k := LeadingNulls(ps);
    EmptyTotal(ps[..k]);
    TotalConcat(ps[..k], ps[k..]);
    assert ps == ps[..k] + ps[k..];
    if k == |ps| {
      assert ps[..k] == ps;
      if ps != [] {
        assert ps[k - 1] in ps;
      }
    }
  }

  lemma {:induction false} EmptyTotal(ps: seq<Piece>)
    requires forall i | 0 <= i < |ps| :: ps[i].size == 0
    ensures Total(ps) == 0
  {
    if ps != [] {
      EmptyTotal(ps[..|ps| - 1]);
    }
  }

  /** An input that is used in place has every piece where the gather would have
      put it. */
  lemma {:induction false} InPlaceArrived(ps: seq<Piece>, coalesce: bool, buffer: Loc, size: nat, m: Memory, k: nat)
    requires forall p | p in ps :: p.ptr.IsNull() ==> p.size == 0
    requires Found(ps, coalesce, true, buffer, size) && size > 0 && k < |ps|
    ensures PieceArrived(m, m, buffer.Plus(Total(ps[..k])), ps[k])
  {
    var n := LeadingNulls(ps);
    NullsAreEmpty(ps);
    if k < n {
      assert ps[k] in ps;
    } else {
      var run := ps[n..];
      RunOffset(run, k - n);
      TotalSplit(ps, n, k);
    }
  }

  /** Request i's bytes are where the sizes of the requests before it say. */
  ghost predicate InBatch(m: Memory, orig: Memory, t: Tensor, requests: seq<RequestData>, i: nat)
    requires i < |requests|
  {
    Read(m, t.ptr.Plus(Offset(BuffersOf(requests), i)), InputSize(requests, i))
    == Bytes(orig, PiecesOf(requests[i].buffers, i))
  }

  lemma {:induction false} InPlaceBatch(requests: seq<RequestData>, coalesce: bool, t: Tensor, m: Memory,
                                        orig: Memory, i: nat)
    requires i < |requests| && forall p | p in Flatten(BuffersOf(requests)) :: p.ptr.IsNull() ==> p.size == 0
    requires Found(Flatten(BuffersOf(requests)), coalesce, true, t.ptr, t.size) && t.size > 0
    requires forall p | p in Flatten(BuffersOf(requests)) :: forall l: Loc | In(l, p.ptr, p.size) :: m(l) == orig(l)
    ensures InBatch(m, orig, t, requests, i)
  {
    hide Flatten, Total, Found, PieceArrived, Bytes, Read;
    var bs := BuffersOf(requests);
    var ps, at := PiecesOf(bs[i], i), t.ptr.Plus(Offset(bs, i));
    forall k | 0 <= k < |ps|
      ensures PieceArrived(m, orig, at.Plus(Total(ps[..k])), ps[k])
    {
      InPlacePiece(bs, coalesce, t, m, orig, i, k);
    }
    Assemble(m, orig, at, ps);
  }

  lemma {:induction false} InPlacePiece(bs: seq<Request>, coalesce: bool, t: Tensor, m: Memory, orig: Memory, i: nat,
                                        k: nat)
    requires i < |bs| && k < |bs[i]| && forall p | p in Flatten(bs) :: p.ptr.IsNull() ==> p.size == 0
    requires Found(Flatten(bs), coalesce, true, t.ptr, t.size) && t.size > 0
    requires forall p | p in Flatten(bs) :: forall l: Loc | In(l, p.ptr, p.size) :: m(l) == orig(l)
    ensures var ps := PiecesOf(bs[i], i);
            PieceArrived(m, orig, t.ptr.Plus(Offset(bs, i)).Plus(Total(ps[..k])), ps[k])
  {
    hide Flatten, Total, Found;
    var before, ps, f := Flatten(bs[..i]), PiecesOf(bs[i], i), Flatten(bs);
    PieceAt(bs, i, k);
    InPlaceArrived(f, coalesce, t.ptr, t.size, m, |before| + k);
    PrefixAt(bs, i, k);
    TotalConcat(before, ps[..k]);
    assert f[|before| + k] == ps[k] && ps[k] in f;
  }

  lemma {:induction false} PrefixAt(bs: seq<Request>, i: nat, k: nat)
    requires i < |bs| && k < |bs[i]|
    ensures |Flatten(bs[..i])| + k < |Flatten(bs)|
    ensures Flatten(bs)[..|Flatten(bs[..i])| + k] == Flatten(bs[..i]) + PiecesOf(bs[i], i)[..k]
  {
    FlattenStep(bs, i);
    var f := Flatten(bs[..i + 1]);
    assert Flatten(bs)[..|f|] == f;
  }

  lemma {:induction false} EmptyBatch(requests: seq<RequestData>, t: Tensor, m: Memory, orig: Memory, i: nat)
    requires i < |requests| && Total(Flatten(BuffersOf(requests))) == 0
    ensures InBatch(m, orig, t, requests, i)
  {
    hide Flatten, Total, Bytes, BuffersOf;
    var bs := BuffersOf(requests);
    FlattenStep(bs, i);
    TotalConcat(Flatten(bs[..i]), PiecesOf(bs[i], i));
    var f := Flatten(bs[..i + 1]);
    assert Flatten(bs) == f + Flatten(bs)[|f|..];
    TotalConcat(f, Flatten(bs)[|f|..]);
    BytesLength(orig, PiecesOf(bs[i], i));
    BuffersAt(requests, i);
  }

  lemma {:induction false} BuffersAt(requests: seq<RequestData>, i: nat)
    requires i < |requests|
    ensures |BuffersOf(requests)| == |requests| && BuffersOf(requests)[i] == requests[i].buffers
  {}

  lemma {:induction false} BytesLength(m: Memory, ps: seq<Piece>)
    ensures |Bytes(m, ps)| == Total(ps)
  {
    if ps != [] {
      BytesLength(m, ps[..|ps| - 1]);
    }
  }

  lemma {:induction false} GatheredBatch(requests: seq<RequestData>, coalesce: bool, t: Tensor, m: Memory, orig: Memory,
                                         live: seq<bool>, obls: seq<Obligation>, i: nat)
    requires i < |requests| == |live| && live[i] && Reached(BuffersOf(requests), coalesce, i)
    requires t.size == Total(Flatten(BuffersOf(requests)))
    requires t.size > 0 ==>
               forall ob | ob in CallObligations(t, Chunks(Delivered(BuffersOf(requests), coalesce), coalesce)) :: ob in obls
    requires forall ob | ob in obls :: Settled(ob, m, orig, live)
    ensures InBatch(m, orig, t, requests, i)
  {
    if t.size == 0 {
      EmptyBatch(requests, t, m, orig, i);
    } else {
      RequestArrives(t, BuffersOf(requests), coalesce, m, orig, live, i);
    }
  }

  // ---------------------------------------------------------------------------
  // Inputs and outputs that must be waited for
  // ---------------------------------------------------------------------------

  /** The memory types the backend can work on. */
  function HostTypes(): seq<(MemoryType, int)> {
    [(CpuPinned, 0), (Cpu, 0)]
  }

  /** The input, apart from null pointers, is one buffer that the backend can work on. */
  predicate UsableInPlace(bs: seq<Request>) {
    var f := Flatten(bs);
    var k := LeadingNulls(f);
    && k < |f| && InOnePlace(f[k..], false) && SizeFound(f) > 0
    && f[k].ptr.space.Type() != Gpu && f[k].ptr.space.TypeId() == 0
  }

  predicate SomeFromDevice(ps: seq<Piece>) {
    exists k | 0 <= k < |ps| :: ps[k].ptr.space.Type() == Gpu
  }

  predicate AllFromDevice(ps: seq<Piece>) {
    forall k | 0 <= k < |ps| :: ps[k].ptr.space.Type() == Gpu
  }

  /** The input has to be copied, and some of it lies in GPU memory. */
  predicate NeedsWait(bs: seq<Request>) {
    Total(Flatten(bs)) > 0 && !UsableInPlace(bs) && SomeFromDevice(Delivered(bs, false))
  }

  predicate SomeOnDevice(slots: seq<Slot>) {
    exists k | 0 <= k < |slots| :: slots[k].Held? && slots[k].p.space.Type() == Gpu
  }

  /** A batch in GPU memory, for instance a single request with a single buffer. */
  lemma {:induction false} DeviceBatchNeedsWait(bs: seq<Request>)
    requires bs != [] && bs[0] != [] && Total(Flatten(bs)) > 0 && AllFromDevice(Flatten(bs))
    ensures NeedsWait(bs) && AllFromDevice(Delivered(bs, false))
  {
    hide Delivered, Flatten, Total, InOnePlace, SizeFound, LeadingNulls;
    DeliveredFirst(bs);
    assert forall k | 0 <= k < |Delivered(bs, false)| :: Delivered(bs, false)[k] == Flatten(bs)[k];
    assert Delivered(bs, false)[0].ptr.space.Type() == Gpu;
  }

  lemma {:induction false} DeliveredFirst(bs: seq<Request>)
    requires bs != [] && bs[0] != []
    ensures Delivered(bs, false) <= Flatten(bs) && Delivered(bs, false) != []
  {
    hide Flatten, Ordered;
    DeliveredPiece(bs, false, 0, 0);
    FlattenPrefix(bs, Visited(bs, false));
  }

  /** The input is used in place exactly if it can be. */
  lemma {:induction false} PlacedInPlace(bs: seq<Request>, place: Placement)
    requires forall p | p in Flatten(bs) :: p.ptr.IsNull() ==> p.size == 0
    requires place.InPlace? ==>
               && Found(Flatten(bs), false, true, place.t.ptr, place.t.size) && place.t.size > 0
               && (place.t.ptr.space.Type(), place.t.ptr.space.TypeId()) in HostTypes()
    requires !place.InPlace? ==>
               forall p: Loc | !p.IsNull() && Found(Flatten(bs), false, true, p, SizeFound(Flatten(bs))) ::
                 SizeFound(Flatten(bs)) == 0 || (p.space.Type(), p.space.TypeId()) !in HostTypes()
    ensures place.InPlace? <==> UsableInPlace(bs)
  {
    var f := Flatten(bs);
    var k := LeadingNulls(f);
    if UsableInPlace(bs) {
      assert Found(f, false, true, f[k].ptr, SizeFound(f));
    }
    NullsAreEmpty(f);
  }

  /** Gathered into host memory that has room for it, the input takes the stream
      exactly if some of it lies in GPU memory. */
  lemma {:induction false} StreamsFromDevice(c: InputCollector, bs: seq<Request>, t: Tensor)
    requires c.dev.gpuEnabled && !c.copyOnStream && t.ptr.space.Type() != Gpu
    requires Sizes(Chunks(Delivered(bs, false), false)) <= t.size
    ensures c.SomeStreams(Chunks(Delivered(bs, false), false), t) <==> SomeFromDevice(Delivered(bs, false))
  {
    var ps := Delivered(bs, false);
    var cs := Chunks(ps, false);
    ChunksAreBuffers(ps);
    RoomForAll(cs, t);
    hide Delivered, Chunks, Sizes, FitsAt;
    forall j | 0 <= j < |cs|
      ensures cs[j].ptr == ps[j].ptr && FitsAt(cs, t, j) && (c.Streams(cs[j], t) <==> ps[j].ptr.space.Type() == Gpu)
    {}
    if SomeFromDevice(ps) {
      var k :| 0 <= k < |ps| && ps[k].ptr.space.Type() == Gpu;
      assert c.Streams(cs[k], t);
    }
  }

  // ---------------------------------------------------------------------------
  // Execute
  // ---------------------------------------------------------------------------

  /** What is known when the input has been collected: the batched tensor, whether there is
      one, whether the input was gathered into it, and whether it must be waited for. */
  datatype Batched = Batched(t: Tensor, placed: bool, gathered: bool, sync: bool)

  /** The batch as it is sent. */
  function AsShipment(gpu: bool, requests: seq<RequestData>, b: Batched, slots: seq<Slot>): Shipment {
    Shipment(gpu, BuffersOf(requests), b.t, b.gathered, slots)
  }

  lemma {:induction false} SizesUpTo(ps: seq<Piece>, j: nat)
    requires j <= |ps|
    ensures |Chunks(ps, false)| == |ps| && Sizes(Chunks(ps, false)[..j]) == Total(ps[..j])
  {
    hide Chunks;
    ChunksAreBuffers(ps);
    if j > 0 {
      var cs := Chunks(ps, false);
      SizesUpTo(ps, j - 1);
      assert cs[..j][..j - 1] == cs[..j - 1] && ps[..j][..j - 1] == ps[..j - 1];
    }
  }

  /** What the collector has issued for an input of single buffers that fits. */
  lemma {:induction false} InputsAsIssued(c: InputCollector, bs: seq<Request>, t: Tensor, ops0: seq<Issue>,
                                          ops1: seq<Issue>, live: seq<bool>)
    requires !c.copyOnStream && t.ptr.space.Type() != Gpu && |bs| == |live|
    requires Sizes(Chunks(Delivered(bs, false), false)) <= t.size
    requires c.AllIssued(ops0, ops1, Chunks(Delivered(bs, false), false), t, live)
    ensures Shipment(c.dev.gpuEnabled, bs, t, true, []).InputsIssued(ops1[|ops0|..], live)
  {
    hide Chunks, Delivered, Sizes, FitsAt, Total;
    var b, d := Shipment(c.dev.gpuEnabled, bs, t, true, []), Delivered(bs, false);
    var cs := Chunks(d, false);
    ChunksAreBuffers(d);
    RoomForAll(cs, t);
    forall j | 0 <= j < |d|
      ensures c.IssueOf(cs[j], t, Sizes(cs[..j])) == b.InputIssue(j) && d[j].req < |live|
    {
      SizesUpTo(d, j);
      DeliveredRequest(bs, j);
    }
    forall op | op in ops1[|ops0|..]
      ensures b.IsInput(op)
    {
      assert c.IsIssue(op, cs, t);
      var j :| 0 <= j < |cs| && FitsAt(cs, t, j) && op == c.IssueOf(cs[j], t, Sizes(cs[..j]));
    }
    forall j | 0 <= j < |d| && live[d[j].req]
      ensures b.InputIssue(j) in ops1[|ops0|..]
    {
      assert FitsAt(cs, t, j) && !AllNull(live, cs[j].first, cs[j].last);
    }
  }

  lemma {:induction false} DeliveredRequest(bs: seq<Request>, j: nat)
    requires j < |Delivered(bs, false)|
    ensures Delivered(bs, false)[j].req < |bs|
  {
    FlattenedRequest(bs[..Visited(bs, false)], j);
  }

  lemma {:induction false} FlattenedRequest(bs: seq<Request>, j: nat)
    requires j < |Flatten(bs)|
    ensures Flatten(bs)[j].req < |bs|
  {
    var before := Flatten(bs[..|bs| - 1]);
    if j < |before| {
      FlattenedRequest(bs[..|bs| - 1], j);
    }
  }

  /** What the responder has issued for a tensor in host memory. */
  lemma {:induction false} OutputsAsIssued(o: OutputResponder, requests: seq<RequestData>, b: Batched, cut: Cut,
                                           slots: seq<Slot>, ops0: seq<Issue>, ops1: seq<Issue>, live: seq<bool>)
    requires !o.copyOnStream && b.t.ptr.space.Type() != Gpu && |slots| == |requests| == |live| == |cut.sizes|
    requires cut.t == b.t.ptr && o.AllIssued(ops0, ops1, cut, slots, live)
    requires forall i | 0 <= i < |requests| ::
               cut.sizes[i] == InputSize(requests, i) && SumTo(cut.sizes, i) == Offset(BuffersOf(requests), i)
    ensures AsShipment(o.dev.gpuEnabled, requests, b, slots).OutputsIssued(ops1[|ops0|..], live)
  {
    hide SumTo, Offset, Total;
    var p := AsShipment(o.dev.gpuEnabled, requests, b, slots);
    forall i | 0 <= i < |slots| && slots[i].Held?
      ensures o.IssueOf(cut.SliceAt(i), slots[i].p, cut.sizes[i], cut.t) == p.OutputIssue(i)
    {}
    forall op | op in ops1[|ops0|..]
      ensures p.IsOutput(op)
    {
      assert o.IsIssue(op, cut, slots);
      var i :| 0 <= i < |slots| && slots[i].Held? && op == o.IssueOf(cut.SliceAt(i), slots[i].p, cut.sizes[i], cut.t);
      assert op == p.OutputIssue(i);
    }
  }

  /** Where the collector found or made room for the input. */
  ghost predicate WellPlaced(requests: seq<RequestData>, b: Batched, inputs: iset<Loc>, lo: nat, hi: nat) {
    if b.gathered then b.t.ptr.space.Owned? && lo <= b.t.ptr.space.ownedSerial < hi
    else Within(b.t.ptr, b.t.size, inputs) && b.t.size > 0
         && Found(Flatten(BuffersOf(requests)), false, true, b.t.ptr, b.t.size)
  }

  /** Inputs, tensor and buffers are apart. */
  lemma {:induction false} ShipmentPlaced(gpu: bool, requests: seq<RequestData>, b: Batched, slots: seq<Slot>,
                                       inputs: iset<Loc>, lo: nat, hi: nat, top: nat)
    requires Usable(requests, inputs, lo) && lo <= hi && |slots| == |requests| && WellPlaced(requests, b, inputs, lo, hi)
    requires forall p | p in Flatten(BuffersOf(requests)) :: p.ptr.IsNull() ==> p.size == 0
    requires b.t.size == Total(Flatten(BuffersOf(requests)))
    requires HandedOut(slots, hi, top)
    requires forall j, k | 0 <= j < k < |slots| && slots[j].Held? && slots[k].Held? :: slots[j].p.space != slots[k].p.space
    ensures AsShipment(gpu, requests, b, slots).Placed(inputs)
  {
    hide Total, Flatten, BuffersOf, Offset, Found, Bytes;
    var p, bs := AsShipment(gpu, requests, b, slots), BuffersOf(requests);
    if !b.gathered {
      assert In(b.t.ptr, b.t.ptr, b.t.size);
      forall m: Memory, i | 0 <= i < |bs|
        ensures Read(m, b.t.ptr.Plus(Offset(bs, i)), p.Size(i)) == Bytes(m, p.Pieces(i))
      {
        BuffersAt(requests, i);
        InPlaceBatch(requests, false, b.t, m, m, i);
      }
    }
    assert |bs| == |requests| by { BuffersLength(requests); }
  }

  lemma {:induction false} BuffersLength(requests: seq<RequestData>)
    ensures |BuffersOf(requests)| == |requests|
  {}

  ghost predicate Usable(requests: seq<RequestData>, inputs: iset<Loc>, nextSerial: nat) {
    && (forall l | l in inputs :: !l.space.Staging? && (l.space.Owned? ==> l.space.ownedSerial < nextSerial))
    && forall p | p in Flatten(BuffersOf(requests)) :: Within(p.ptr, p.size, inputs)
  }

  /** The place found for the input has the size of the input, and in place it
      consists of input bytes. */
  lemma {:induction false} Placed(bs: seq<Request>, place: Placement, inputs: iset<Loc>)
    requires forall p | p in Flatten(bs) :: Within(p.ptr, p.size, inputs) && (p.ptr.IsNull() ==> p.size == 0)
    requires place.Gathered? ==> place.t.size == SizeFound(Flatten(bs))
    requires place.InPlace? ==> Found(Flatten(bs), false, true, place.t.ptr, place.t.size) && place.t.size > 0
    ensures !place.Unplaced? ==> place.t.size == Total(Flatten(bs))
    ensures !place.Unplaced? ==> Sizes(Chunks(Delivered(bs, false), false)) <= place.t.size
    ensures place.InPlace? ==> Within(place.t.ptr, place.t.size, inputs)
  {
    hide Flatten, Total, Sizes, Chunks, Delivered, Visited, Found, SizeFound, Within, LeadingNulls, InOnePlace;
    var f := Flatten(bs);
    NullsAreEmpty(f);
    DeliveredAtMost(bs);
    if place.InPlace? {
      FoundWithin(f, place.t, inputs);
    }
  }

  lemma {:induction false} DeliveredAtMost(bs: seq<Request>)
    ensures Sizes(Chunks(Delivered(bs, false), false)) <= Total(Flatten(bs))
  {
    hide Flatten, Total, Sizes, Chunks, Delivered;
    DeliveredSize(bs, false);
    var v, f := Visited(bs, false), Flatten(bs);
    FlattenPrefix(bs, v);
    var d := Flatten(bs[..v]);
    assert f == d + f[|d|..];
    TotalConcat(d, f[|d|..]);
  }

  lemma {:induction false} FoundWithin(f: seq<Piece>, t: Tensor, inputs: iset<Loc>)
    requires forall p | p in f :: Within(p.ptr, p.size, inputs) && (p.ptr.IsNull() ==> p.size == 0)
    requires Found(f, false, true, t.ptr, t.size) && t.size > 0
    ensures t.size == SizeFound(f) && Within(t.ptr, t.size, inputs)
  {
    hide Within, LeadingNulls, Total;
    RunWithin(f[LeadingNulls(f)..], inputs);
  }

  /** Creates one response per request; if that fails the function is left with
      nothing sent and nothing released. */
  method CreateResponses(dev: Device, count: nat) returns (ok: bool, resp: ResponseSet)
    modifies dev`refusals
    ensures fresh(resp) && resp.Valid() && (forall i | 0 <= i < |resp.live| :: resp.live[i])
    ensures if ok then |resp.live| == count && dev.refusals == old(dev.refusals) else dev.refusals.any
  {
    resp := new ResponseSet();
    var r := 0;
    while r < count
      invariant r <= count && resp.Valid() && |resp.live| == r && fresh(resp) && dev.refusals == old(dev.refusals)
      invariant forall i | 0 <= i < r :: resp.live[i]
    {
      ok := dev.AskServer(Range(r, r));
      if !ok {
        return;
      }
      resp.New();
      r := r + 1;
    }
    ok := true;
  }

  /** The input may lie in the requests' own memory, or in a new region, of a host type. */
  ghost predicate PlaceFound(bs: seq<Request>, place: Placement, lo: nat, hi: nat) {
    && (place.InPlace? ==>
          && Found(Flatten(bs), false, true, place.t.ptr, place.t.size) && place.t.size > 0
          && (place.t.ptr.space.Type(), place.t.ptr.space.TypeId()) in HostTypes())
    && (!place.InPlace? ==>
          forall p: Loc | !p.IsNull() && Found(Flatten(bs), false, true, p, SizeFound(Flatten(bs))) ::
            SizeFound(Flatten(bs)) == 0 || (p.space.Type(), p.space.TypeId()) !in HostTypes())
    && (place.Gathered? ==>
          && (place.t.ptr.space.Type(), place.t.ptr.space.TypeId()) in HostTypes()
          && place.t.ptr.space.Owned? && lo <= place.t.ptr.space.ownedSerial < hi
          && place.t.size == SizeFound(Flatten(bs)))
  }

  /** A new region is in pinned memory, or, if there was no room there, in other host
      memory. */
  ghost predicate PlacedInTurn(place: Placement, denials: int) {
    && !place.Unplaced? && place.t.ptr.space.TypeId() == 0
    && place.t.ptr.space.Type() == if denials == 0 then CpuPinned else Cpu
  }

  lemma {:induction false} PlaceIsHost(bs: seq<Request>, place: Placement, lo: nat, hi: nat)
    requires PlaceFound(bs, place, lo, hi)
    ensures !place.Unplaced? ==> place.t.ptr.space.Type() != Gpu
  {}

  /** Creates the collector, hands it the input, and finishes it. */
  method RunCollector(dev: Device, resp: ResponseSet, bs: seq<Request>, ghost inputs: iset<Loc>)
    returns (place: Placement, sync: bool, ghost c: InputCollector, ghost live: seq<bool>, ghost f: Refusals)
    requires resp.Valid() && |resp.live| == |bs| > 0 && dev.stream == [] && dev.bufferReady
    requires forall l | l in inputs :: !l.space.Staging? && (l.space.Owned? ==> l.space.ownedSerial < dev.nextSerial)
    requires forall p | p in Flatten(bs) :: Within(p.ptr, p.size, inputs)
    modifies dev, resp
    ensures resp.Valid() && dev.bufferReady && dev.nextSerial >= old(dev.nextSerial) && dev.waits == old(dev.waits)
    ensures !place.InPlace? ==> (place.Unplaced? <==> dev.denied == old(dev.denied) + 2)
    ensures place.Gathered? ==> PlacedInTurn(place, dev.denied - old(dev.denied))
    ensures !old(dev.astray) ==> !dev.astray
    ensures c.dev == dev && !c.copyOnStream && PlaceFound(bs, place, old(dev.nextSerial), dev.nextSerial)
    ensures if place.Gathered? && place.t.size > 0
            then Losses(old(resp.live), live, old(dev.refusals), f, Unfit(Chunks(Delivered(bs, false), false), place.t))
            else live == old(resp.live) && f == old(dev.refusals)
    ensures OnlyNulled(live, resp.live) && |resp.live| == |bs| && (place.Unplaced? ==> !AnyLive(resp.live))
    ensures !place.Unplaced? ==> Losses(live, resp.live, f, dev.refusals, iset{})
    ensures sync ==> c.SomeStreamTo(place, Chunks(Delivered(bs, false), false))
    ensures !dev.refusals.any ==> sync == c.SomeStreamTo(place, Chunks(Delivered(bs, false), false))
    ensures !sync ==> dev.stream == []
    ensures if place.Gathered? && place.t.size > 0
            then c.AllIssued(old(dev.issued), dev.issued, Chunks(Delivered(bs, false), false), place.t, live)
            else dev.issued == old(dev.issued)
    ensures c.obls == if place.Gathered? && place.t.size > 0
                      then CallObligations(place.t, Chunks(Delivered(bs, false), false)) else []
    ensures forall ob | ob in c.obls :: Settled(ob, dev.Settled(), old(dev.mem), resp.live)
    ensures forall l | l in inputs :: dev.Settled()(l) == old(dev.mem)(l)
  {
    hide InputCollector.Idle, Settled, CallObligations, Chunks, Found, Flatten, Delivered, Losses, Unfit, Sizes, KernelFits;
    hide InputCollector.AllIssued, InputCollector.SomeStreamTo, InputCollector.FitsPlace;
    var collector := new InputCollector(dev, resp, false, false, false, 0, false, false, inputs);
    var noBuffer := Tensor(Loc(Caller(Cpu, 0), 0), 0);
    place := collector.ProcessInput(bs, noBuffer, HostTypes());
    NoKernel(collector, place, Chunks(Delivered(bs, false), false));
    live, f := resp.live, dev.refusals;
    if place.Unplaced? {
      collector.RespondAll();
    }
    ghost var live1 := resp.live;
    InputsApart(collector);
    sync := collector.Finalize();
    OnlyLosses(live1, resp.live, f, dev.refusals, iset{});
    c := collector;
  }

  lemma {:induction false} InputsApart(c: InputCollector)
    requires c.Idle()
    ensures |c.resp.live| == c.count && forall l | l in c.r.inputs :: l !in c.r.dests && !l.space.Staging?
  {}

  /** Gathers the input of the batch into memory the host can read.  The result asks
      for a wait exactly if the device has to copy some of the input, unless copies are
      refused; once the stream has run dry every request's bytes are in place. */
  method Collect(dev: Device, resp: ResponseSet, requests: seq<RequestData>, ghost inputs: iset<Loc>)
    returns (b: Batched)
    requires resp.Valid() && |resp.live| == |requests| > 0 && dev.stream == [] && dev.bufferReady
    requires Usable(requests, inputs, dev.nextSerial)
    requires forall p | p in Flatten(BuffersOf(requests)) :: p.ptr.IsNull() ==> p.size == 0
    modifies dev, resp
    ensures resp.Valid() && |resp.live| == |requests| && OnlyNulled(old(resp.live), resp.live) && dev.bufferReady
    ensures b.sync ==> dev.gpuEnabled && NeedsWait(BuffersOf(requests))
    ensures b.placed && !dev.refusals.any ==> b.sync == (dev.gpuEnabled && NeedsWait(BuffersOf(requests)))
    ensures dev.waits == old(dev.waits) && old(dev.issued) <= dev.issued && dev.nextSerial >= old(dev.nextSerial)
    ensures b.placed ==> b.gathered == !UsableInPlace(BuffersOf(requests))
    ensures b.placed <==> UsableInPlace(BuffersOf(requests)) || dev.denied != old(dev.denied) + 2
    ensures b.placed && b.gathered ==>
              b.t.ptr.space.Type() == if dev.denied == old(dev.denied) then CpuPinned else Cpu
    ensures !old(dev.astray) ==> !dev.astray
    ensures b.placed ==> WellPlaced(requests, b, inputs, old(dev.nextSerial), dev.nextSerial)
    ensures b.placed ==>
              Shipment(dev.gpuEnabled, BuffersOf(requests), b.t, b.gathered, []).InputsIssued(
                dev.issued[|old(dev.issued)|..], resp.live)
    ensures !b.sync ==> dev.stream == []
    ensures !b.placed ==> !AnyLive(resp.live)
    ensures b.t.ptr.space.Type() != Gpu
    ensures b.placed ==> b.t.size == Total(Flatten(BuffersOf(requests)))
    ensures b.placed ==> forall l: Loc | In(l, b.t.ptr, b.t.size) ::
                           !l.space.Staging? && (l.space.Owned? ==> l.space.ownedSerial < dev.nextSerial)
    ensures b.placed ==>
              forall i | 0 <= i < |requests| && resp.live[i] && Reached(BuffersOf(requests), false, i) ::
                InBatch(dev.Settled(), old(dev.mem), b.t, requests, i)
    ensures b.placed ==> Losses(old(resp.live), resp.live, old(dev.refusals), dev.refusals, iset{})
  {
    hide Settled, CallObligations, Chunks, Found, Flatten, Delivered, Losses, NeedsWait, UsableInPlace, HostTypes;
    hide Unfit, Sizes, SomeFromDevice, InputCollector.AllIssued, InputCollector.SomeStreamTo, Shipment.InputsIssued;
    var noBuffer := Tensor(Loc(Caller(Cpu, 0), 0), 0);
    var place, sync;
    ghost var collector, live, f;
    place, sync, collector, live, f := RunCollector(dev, resp, BuffersOf(requests), inputs);
    b := Batched(if place.Unplaced? then noBuffer else place.t, !place.Unplaced?, place.Gathered?, sync);
    PlaceIsHost(BuffersOf(requests), place, old(dev.nextSerial), dev.nextSerial);
    Placed(BuffersOf(requests), place, inputs);
    PlacedInPlace(BuffersOf(requests), place);
    WaitsExactly(collector, BuffersOf(requests), place);
    if b.placed {
      CollectIssues(collector, BuffersOf(requests), place, old(dev.issued), dev.issued, live, resp.live);
    }
    CollectLosses(old(resp.live), live, resp.live, old(dev.refusals), f, dev.refusals, BuffersOf(requests), place);
    if b.placed {
      forall i | 0 <= i < |requests| && resp.live[i] && Reached(BuffersOf(requests), false, i)
        ensures InBatch(dev.Settled(), old(dev.mem), b.t, requests, i)
      {
        if place.InPlace? {
          InPlaceBatch(requests, false, b.t, dev.Settled(), old(dev.mem), i);
        } else {
          GatheredBatch(requests, false, b.t, dev.Settled(), old(dev.mem), resp.live, collector.obls, i);
        }
      }
    }
  }

  /** Whatever was issued is of the kind that the batch asks for. */
  lemma {:induction false} CollectIssues(c: InputCollector, bs: seq<Request>, place: Placement, ops0: seq<Issue>,
                                         ops1: seq<Issue>, live0: seq<bool>, live1: seq<bool>)
    requires !place.Unplaced? && !c.copyOnStream && |bs| == |live1| && OnlyNulled(live0, live1)
    requires place.Gathered? ==> place.t.ptr.space.Type() != Gpu && Sizes(Chunks(Delivered(bs, false), false)) <= place.t.size
    requires if place.Gathered? && place.t.size > 0
             then c.AllIssued(ops0, ops1, Chunks(Delivered(bs, false), false), place.t, live0) else ops1 == ops0
    ensures ops0 <= ops1
    ensures Shipment(c.dev.gpuEnabled, bs, place.t, place.Gathered?, []).InputsIssued(ops1[|ops0|..], live1)
  {
    hide Delivered, Chunks, Sizes, Total;
    if place.Gathered? && place.t.size > 0 {
      c.StillIssued(ops0, ops1, Chunks(Delivered(bs, false), false), place.t, live0, live1);
      InputsAsIssued(c, bs, place.t, ops0, ops1, live1);
    } else {
      assert ops1[|ops0|..] == [];
    }
  }

  /** The collector launches no kernel. */
  lemma {:induction false} NoKernel(c: InputCollector, place: Placement, cs: seq<Chunk>)
    requires c.kernelThreshold == 0
    ensures c.FitsPlace(place, cs)
  {}

  /** The collector asks for a wait exactly if the input needs one. */
  lemma {:induction false} WaitsExactly(c: InputCollector, bs: seq<Request>, place: Placement)
    requires forall p | p in Flatten(bs) :: p.ptr.IsNull() ==> p.size == 0
    requires !c.copyOnStream
    requires place.InPlace? ==>
               && Found(Flatten(bs), false, true, place.t.ptr, place.t.size) && place.t.size > 0
               && (place.t.ptr.space.Type(), place.t.ptr.space.TypeId()) in HostTypes()
    requires !place.InPlace? ==>
               forall p: Loc | !p.IsNull() && Found(Flatten(bs), false, true, p, SizeFound(Flatten(bs))) ::
                 SizeFound(Flatten(bs)) == 0 || (p.space.Type(), p.space.TypeId()) !in HostTypes()
    requires place.Gathered? ==> (place.t.ptr.space.Type(), place.t.ptr.space.TypeId()) in HostTypes()
    requires !place.Unplaced? ==>
               place.t.size == Total(Flatten(bs)) && Sizes(Chunks(Delivered(bs, false), false)) <= place.t.size
    ensures c.SomeStreamTo(place, Chunks(Delivered(bs, false), false)) ==> c.dev.gpuEnabled && NeedsWait(bs)
    ensures !place.Unplaced? ==>
              c.SomeStreamTo(place, Chunks(Delivered(bs, false), false)) == (c.dev.gpuEnabled && NeedsWait(bs))
  {
    hide Chunks, Delivered, Flatten, Sizes, Found, LeadingNulls, SizeFound;
    PlacedInPlace(bs, place);
    if place.Gathered? && c.dev.gpuEnabled {
      StreamsFromDevice(c, bs, place.t);
    }
  }

  /** The tensor has room for everything, so responses are lost to refusals only. */
  lemma {:induction false} CollectLosses(live0: seq<bool>, live1: seq<bool>, live2: seq<bool>, f0: Refusals, f1: Refusals,
                                         f2: Refusals, bs: seq<Request>, place: Placement)
    requires place.Gathered? && place.t.size > 0 ==>
               Losses(live0, live1, f0, f1, Unfit(Chunks(Delivered(bs, false), false), place.t))
    requires !(place.Gathered? && place.t.size > 0) ==> live1 == live0 && f1 == f0
    requires !place.Unplaced? ==>
               Losses(live1, live2, f1, f2, iset{}) && Sizes(Chunks(Delivered(bs, false), false)) <= place.t.size
    ensures !place.Unplaced? ==> Losses(live0, live2, f0, f2, iset{}) && OnlyNulled(live0, live2)
  {
    if !place.Unplaced? {
      RoomForAll(Chunks(Delivered(bs, false), false), place.t);
      hide Unfit;
      if !(place.Gathered? && place.t.size > 0) {
        NoLosses(live0, f0);
      }
      LossesJoin(live0, live1, live2, f0, f1, f2, iset{}, iset{});
    }
  }

  /** The slices that the scatter will cut make up the batched tensor. */
  ghost function OutputSizes(requests: seq<RequestData>, typeSize: nat, batchn: Shape,
                             firstDim: bool): (sizes: seq<nat>)
    requires WellSized(requests, typeSize, batchn, firstDim)
    requires firstDim ==> batchn[0] == WILDCARD_DIM
    ensures Splittable(InfosOf(requests), typeSize, batchn, firstDim)
    ensures sizes == SizesFor(InfosOf(requests), typeSize, batchn, firstDim)
    ensures TensorSize(InfosOf(requests), typeSize, batchn, firstDim) == Total(Flatten(BuffersOf(requests)))
  {
    OffsetsAgree(requests, typeSize, batchn, firstDim, |requests|);
    assert BuffersOf(requests)[..|requests|] == BuffersOf(requests);
    SizesFor(InfosOf(requests), typeSize, batchn, firstDim)
  }

  lemma {:induction false} SizesAgree(requests: seq<RequestData>, typeSize: nat, batchn: Shape, firstDim: bool, i: nat)
    requires WellSized(requests, typeSize, batchn, firstDim) && i < |requests|
    ensures Splittable(InfosOf(requests), typeSize, batchn, firstDim)
    ensures SizesFor(InfosOf(requests), typeSize, batchn, firstDim)[i] == InputSize(requests, i)
  {}

  /** Every response has a buffer of its own. */
  lemma {:induction false} OwnBuffers(cut: Cut, slots: seq<Slot>, live: seq<bool>, obls: seq<Obligation>,
                                      dests0: iset<Loc>, dests: iset<Loc>, lo: nat, hi: nat)
    requires Answering(cut, slots, live, obls, dests0, dests, lo, hi)
    ensures HandedOut(slots, lo, hi) && forall k | 0 <= k < |slots| && slots[k].Held? :: cut.wants[k]
    ensures forall j, k | 0 <= j < k < |slots| && slots[j].Held? && slots[k].Held? :: slots[j].p.space != slots[k].p.space
  {}

  lemma {:induction false} SlicesAgree(requests: seq<RequestData>, typeSize: nat, batchn: Shape, firstDim: bool)
    requires WellSized(requests, typeSize, batchn, firstDim)
    ensures var sizes := SizesFor(InfosOf(requests), typeSize, batchn, firstDim);
            forall i | 0 <= i < |requests| ::
              sizes[i] == InputSize(requests, i) && SumTo(sizes, i) == Offset(BuffersOf(requests), i)
  {
    forall i | 0 <= i < |requests|
      ensures SumTo(SizesFor(InfosOf(requests), typeSize, batchn, firstDim), i) == Offset(BuffersOf(requests), i)
    {
      OffsetsAgree(requests, typeSize, batchn, firstDim, i);
    }
  }

  /** A response that is left and wants the output has its slice. */
  lemma {:induction false} OutputArrives(cut: Cut, slots: seq<Slot>, live0: seq<bool>, live1: seq<bool>,
                                         obls: seq<Obligation>,
                                         dests0: iset<Loc>, dests: iset<Loc>, lo: nat, hi: nat,
                                         m: Memory, orig: Memory, i: nat)
    requires |slots| == |live0| && OnlyNulled(live0, live1) && Answering(cut, slots, live0, obls, dests0, dests, lo, hi)
    requires forall ob | ob in obls :: Settled(ob, m, orig, live1)
    requires i < |slots| && live1[i] && cut.wants[i]
    ensures slots[i].Held? && Read(m, slots[i].p, cut.sizes[i]) == Read(orig, cut.SliceAt(i), cut.sizes[i])
  {
    assert cut.Answered(i, slots, live0, obls);
    SliceArrives(Obligation(Copy(cut.SliceAt(i), slots[i].p, cut.sizes[i]), i, i), m, orig, live1);
  }

  /** Creates the responder, hands it the output, and finishes it. */
  method RunResponder(dev: Device, resp: ResponseSet, firstDim: bool, name: string, typeSize: nat, batchn: Shape, t: Loc,
                      infos: seq<RequestInfo>, ghost bytes: iset<Loc>)
    returns (sync: bool, ghost slots: seq<Slot>, ghost o: OutputResponder, ghost live: seq<bool>, ghost f: Refusals)
    requires resp.Valid() && |resp.live| == |infos| && dev.stream == [] && dev.bufferReady
    requires Splittable(infos, typeSize, batchn, firstDim)
    requires forall l | l in bytes :: !l.space.Staging? && (l.space.Owned? ==> l.space.ownedSerial < dev.nextSerial)
    requires AnyLive(resp.live) ==> Within(t, TensorSize(infos, typeSize, batchn, firstDim), bytes)
    modifies dev, resp
    ensures resp.Valid() && OnlyNulled(live, resp.live) && |slots| == |infos| == |resp.live|
    ensures o.dev == dev && !o.copyOnStream && o.firstDimBatching == firstDim
    ensures dev.waits == old(dev.waits) && dev.nextSerial >= old(dev.nextSerial) && old(dev.issued) <= dev.issued
    ensures dev.denied == old(dev.denied) && dev.astray == old(dev.astray)
    ensures var cut := Cut(t, SizesFor(infos, typeSize, batchn, firstDim), Wanting(infos, name));
            && Answering(cut, slots, live, o.obls, iset{}, o.r.dests, old(dev.nextSerial), dev.nextSerial)
            && o.AllIssued(old(dev.issued), dev.issued, cut, slots, resp.live)
    ensures Losses(old(resp.live), live, old(dev.refusals), f, o.Short(infos, batchn, |infos|))
    ensures Losses(live, resp.live, f, dev.refusals, iset{})
    ensures forall ob | ob in o.obls :: Settled(ob, dev.Settled(), old(dev.mem), resp.live)
    ensures !sync ==> dev.stream == []
    ensures sync ==> o.SomeStreams(slots, t)
    ensures !dev.refusals.any ==> sync == o.SomeStreams(slots, t)
  {
    hide OutputResponder.Idle, Settled, Answering, SumTo, Losses, OutputResponder.SomeStreams, OutputResponder.AllIssued;
    hide OutputResponder.Short, TensorSize, Within;
    var responder := new OutputResponder(dev, resp, firstDim, false, false, false, bytes);
    var shape;
    shape, slots := responder.ProcessTensor(name, typeSize, batchn, t, infos);
    live, f := resp.live, dev.refusals;
    ghost var tries;
    sync, tries := responder.Finalize();
    OnlyLosses(live, resp.live, f, dev.refusals, iset{});
    ghost var cut := Cut(t, SizesFor(infos, typeSize, batchn, firstDim), Wanting(infos, name));
    responder.StillIssued(old(dev.issued), dev.issued, cut, slots, live, resp.live);
    IssuedSince(responder, old(dev.issued), dev.issued, cut, slots, resp.live);
    o := responder;
  }

  lemma {:induction false} IssuedSince(o: OutputResponder, ops0: seq<Issue>, ops1: seq<Issue>, cut: Cut, slots: seq<Slot>,
                                       live: seq<bool>)
    requires o.AllIssued(ops0, ops1, cut, slots, live)
    ensures ops0 <= ops1
  {}

  /** Scatters the batched tensor as the model's output. */
  method Respond(dev: Device, resp: ResponseSet, model: ModelState, requests: seq<RequestData>, batchn: Shape,
                 b: Batched)
    returns (sync: bool, ghost slots: seq<Slot>)
    requires resp.Valid() && |resp.live| == |requests| && dev.stream == [] && dev.bufferReady
    requires batchn == model.BatchShape() && WellSized(requests, model.typeSize, batchn, model.FirstDimBatching())
    requires !b.placed ==> !AnyLive(resp.live)
    requires b.placed ==> b.t.size == Total(Flatten(BuffersOf(requests)))
    requires b.placed ==> forall l: Loc | In(l, b.t.ptr, b.t.size) ::
                            !l.space.Staging? && (l.space.Owned? ==> l.space.ownedSerial < dev.nextSerial)
    requires b.t.ptr.space.Type() != Gpu
    modifies dev, resp
    ensures resp.Valid() && OnlyNulled(old(resp.live), resp.live) && |slots| == |requests| == |resp.live|
    ensures dev.waits == old(dev.waits) && old(dev.issued) <= dev.issued
    ensures dev.denied == old(dev.denied) && dev.astray == old(dev.astray)
    ensures AsShipment(dev.gpuEnabled, requests, b, slots).OutputsIssued(dev.issued[|old(dev.issued)|..], resp.live)
    ensures HandedOut(slots, old(dev.nextSerial), dev.nextSerial)
    ensures forall k | 0 <= k < |slots| && slots[k].Held? :: model.outputName in requests[k].info.outputs
    ensures forall j, k | 0 <= j < k < |slots| && slots[j].Held? && slots[k].Held? :: slots[j].p.space != slots[k].p.space
    ensures !sync ==> dev.stream == []
    ensures sync ==> dev.gpuEnabled && SomeOnDevice(slots)
    ensures !dev.refusals.any ==> sync == (dev.gpuEnabled && SomeOnDevice(slots))
    ensures Losses(old(resp.live), resp.live, old(dev.refusals), dev.refusals, iset{})
    ensures forall i | 0 <= i < |requests| && resp.live[i] && model.outputName in requests[i].info.outputs ::
              slots[i].Held?
              && Read(dev.Settled(), slots[i].p, InputSize(requests, i))
                 == Read(old(dev.mem), b.t.ptr.Plus(Offset(BuffersOf(requests), i)), InputSize(requests, i))
  {
    hide Settled, Answering, WellSized, SumTo, Flatten, Losses, OutputResponder.SomeStreams, OutputResponder.AllIssued;
    hide SomeOnDevice, TensorSize, OutputResponder.Short, Shipment.OutputsIssued, SizesFor, Wanting;
    var firstDim, infos := model.FirstDimBatching(), InfosOf(requests);
    ghost var bytes := iset l: Loc | b.placed && In(l, b.t.ptr, b.t.size);
    ghost var sizes := OutputSizes(requests, model.typeSize, batchn, firstDim);
    ghost var responder, live1, f;
    sync, slots, responder, live1, f := RunResponder(dev, resp, firstDim, model.outputName, model.typeSize, batchn,
                                                     b.t.ptr, infos, bytes);
    RespondLosses(responder, old(resp.live), live1, resp.live, old(dev.refusals), f, dev.refusals, infos, batchn);
    StreamsToDevice(responder, slots, b.t.ptr);
    ghost var cut := Cut(b.t.ptr, sizes, Wanting(infos, model.outputName));
    SlicesAgree(requests, model.typeSize, batchn, firstDim);
    OwnBuffers(cut, slots, live1, responder.obls, iset{}, responder.r.dests, old(dev.nextSerial), dev.nextSerial);
    OutputsAsIssued(responder, requests, b, cut, slots, old(dev.issued), dev.issued, resp.live);
    forall i | 0 <= i < |requests| && resp.live[i] && model.outputName in requests[i].info.outputs
      ensures slots[i].Held?
              && Read(dev.Settled(), slots[i].p, InputSize(requests, i))
                 == Read(old(dev.mem), b.t.ptr.Plus(Offset(BuffersOf(requests), i)), InputSize(requests, i))
    {
      OutputArrives(cut, slots, live1, resp.live, responder.obls, iset{}, responder.r.dests,
                    old(dev.nextSerial), dev.nextSerial, dev.Settled(), old(dev.mem), i);
      OffsetsAgree(requests, model.typeSize, batchn, firstDim, i);
      SizesAgree(requests, model.typeSize, batchn, firstDim, i);
    }
  }

  /** A tensor in host memory reaches the responses through the stream exactly if one
      of their buffers lies in GPU memory. */
  lemma {:induction false} StreamsToDevice(o: OutputResponder, slots: seq<Slot>, t: Loc)
    requires !o.copyOnStream && t.space.Type() != Gpu
    ensures o.SomeStreams(slots, t) <==> o.dev.gpuEnabled && SomeOnDevice(slots)
  {
    if o.dev.gpuEnabled && SomeOnDevice(slots) {
      var k :| 0 <= k < |slots| && slots[k].Held? && slots[k].p.space.Type() == Gpu;
      assert o.Streams(slots[k].p, t);
    }
  }

  /** The batch size of the model's output is not known, so there are rows enough. */
  lemma {:induction false} RespondLosses(o: OutputResponder, live0: seq<bool>, live1: seq<bool>, live2: seq<bool>,
                                         f0: Refusals, f1: Refusals, f2: Refusals, infos: seq<RequestInfo>, batchn: Shape)
    requires batchn != [] && (o.firstDimBatching ==> batchn[0] == WILDCARD_DIM)
    requires o.firstDimBatching ==> forall i | 0 <= i < |infos| :: infos[i].shape != []
    requires Losses(live0, live1, f0, f1, o.Short(infos, batchn, |infos|)) && Losses(live1, live2, f1, f2, iset{})
    ensures Losses(live0, live2, f0, f2, iset{}) && OnlyNulled(live0, live2) && OnlyNulled(live1, live2) && f1.UpTo(f2)
  {
    assert o.Short(infos, batchn, |infos|) == iset{};
    hide OutputResponder.Short;
    LossesJoin(live0, live1, live2, f0, f1, f2, iset{}, iset{});
  }

  /** Gathers the input and scatters it as the output, without waiting in between. */
  method Serve(dev: Device, resp: ResponseSet, model: ModelState, requests: seq<RequestData>, ghost inputs: iset<Loc>)
    returns (b: Batched, outputSync: bool, ghost slots: seq<Slot>)
    requires model.Valid() && |requests| > 0 && dev.stream == [] && dev.bufferReady
    requires resp.Valid() && |resp.live| == |requests| && forall i | 0 <= i < |resp.live| :: resp.live[i]
    requires dev.refusals == Refusals(false, iset{}) && !dev.astray
    requires Usable(requests, inputs, dev.nextSerial)
    requires Sized(requests, model.typeSize, model.maxBatchSize, model.nonBatchShape)
    modifies dev, model, resp
    ensures resp.Valid() && |slots| == |requests| == |resp.live|
    ensures dev.waits == old(dev.waits) && old(dev.issued) <= dev.issued && !dev.astray
    ensures b.placed ==> forall i: nat | i < |requests| :: resp.live[i] <==> i !in dev.refusals.responses
    ensures !b.placed ==> !AnyLive(resp.live)
    ensures b.placed <==> UsableInPlace(BuffersOf(requests)) || dev.denied != old(dev.denied) + 2
    ensures HandedOut(slots, old(dev.nextSerial), dev.nextSerial)
    ensures forall i | 0 <= i < |slots| && slots[i].Held? :: model.outputName in requests[i].info.outputs
    ensures forall i, j | 0 <= i < j < |slots| && slots[i].Held? && slots[j].Held? :: slots[i].p.space != slots[j].p.space
    ensures b.placed ==> b.gathered == !UsableInPlace(BuffersOf(requests))
    ensures forall i | 0 <= i < |requests| && resp.live[i] && model.outputName in requests[i].info.outputs ::
              slots[i].Held? && Exact(AsShipment(dev.gpuEnabled, requests, b, slots), dev.issued[|old(dev.issued)|..], i)
    ensures b.sync ==> dev.gpuEnabled && NeedsWait(BuffersOf(requests))
    ensures outputSync ==> dev.gpuEnabled && SomeOnDevice(slots)
    ensures b.placed && !dev.refusals.any ==>
              && b.sync == (dev.gpuEnabled && NeedsWait(BuffersOf(requests)))
              && outputSync == (dev.gpuEnabled && SomeOnDevice(slots))
    ensures !outputSync ==> dev.stream == []
    ensures !(dev.gpuEnabled && NeedsWait(BuffersOf(requests))) ==>
              Carried(dev.Settled(), old(dev.mem), model.outputName, requests, slots, resp.live)
  {
    hide WellSized, Usable, BuffersOf, InputSize, Flatten, NeedsWait, SomeOnDevice, Losses, Delivered, Exact, UsableInPlace;
    hide Shipment.InputsIssued, Shipment.OutputsIssued, Shipment.Placed, WellPlaced, AsShipment, InBatch, Carried;
    hide OnlyNulled, HandedOut, HostTypes, Sized;
    SizedWell(requests, model);
    EmptyPointers(requests, model.typeSize, model.BatchShape(), model.FirstDimBatching());
    ghost var live0, f0 := resp.live, dev.refusals;
    b := Collect(dev, resp, requests, inputs);
    ghost var live1, f1, ops1, serial1, gathered := resp.live, dev.refusals, dev.issued, dev.nextSerial, dev.Settled();
    if b.sync {
      // The required wait is only logged.
      dev.LoseTrack();
    }
    var tensorShape := model.TensorShape();
    outputSync, slots := Respond(dev, resp, model, requests, tensorShape, b);
    StillDead(live1, resp.live);
    HandedOutSince(slots, old(dev.nextSerial), serial1, dev.nextSerial);
    if !(dev.gpuEnabled && NeedsWait(BuffersOf(requests))) {
      NowCarried(dev.Settled(), gathered, old(dev.mem), model.outputName, requests, b, slots, live1, resp.live);
    }
    if b.placed {
      LossesJoin(live0, live1, resp.live, f0, f1, dev.refusals, iset{}, iset{});
      ExactLosses(live0, resp.live, f0, dev.refusals);
      ShipmentPlaced(dev.gpuEnabled, requests, b, slots, inputs, old(dev.nextSerial), serial1, dev.nextSerial);
      AllExactly(dev.gpuEnabled, requests, b, slots, inputs, old(dev.issued), ops1, dev.issued, live1, resp.live);
    }
  }

  /** The backend's execute function.  It either fails at once, and then leaves
      every request and every response to the server, or it sends exactly one
      response per request and releases every request once.  It never waits for the
      device, and so a success response that was asked for the output comes to carry its
      own request's input bytes, whatever the schedule, exactly if no copy that the host
      overtakes has to bring any of them; and it carries them when it is sent exactly if
      the device is not needed for it at all. */
  method ModelInstanceExecute(dev: Device, model: ModelState, requests: seq<RequestData>, ghost inputs: iset<Loc>)
    returns (ok: bool, resp: ResponseSet, released: seq<nat>, b: Batched, outputSync: bool, ghost slots: seq<Slot>)
    requires model.Valid() && |requests| > 0 && dev.stream == [] && dev.bufferReady
    requires dev.refusals == Refusals(false, iset{}) && !dev.astray
    requires Usable(requests, inputs, dev.nextSerial)
    requires Sized(requests, model.typeSize, model.maxBatchSize, model.nonBatchShape)
    modifies dev, model
    ensures fresh(resp) && |released| == |requests| && |resp.sends| == |resp.live|
    ensures !ok ==> dev.refusals.any && (forall i | 0 <= i < |requests| :: released[i] == 0)
                    && forall i | 0 <= i < |resp.sends| :: resp.sends[i] == 0
    ensures ok ==> |resp.sends| == |requests| && forall i | 0 <= i < |requests| :: released[i] == 1 && resp.sends[i] == 1
    ensures ok ==> |slots| == |requests| && dev.waits == old(dev.waits) && old(dev.issued) <= dev.issued && !dev.astray
    ensures ok && b.placed ==> forall i: nat | i < |requests| :: resp.live[i] <==> i !in dev.refusals.responses
    ensures ok && !b.placed ==> !AnyLive(resp.live)
    ensures ok ==> (b.placed <==> UsableInPlace(BuffersOf(requests)) || dev.denied != old(dev.denied) + 2)
    ensures ok ==> HandedOut(slots, old(dev.nextSerial), dev.nextSerial)
    ensures ok ==> forall i | 0 <= i < |slots| && slots[i].Held? :: model.outputName in requests[i].info.outputs
    ensures ok ==> forall i, j | 0 <= i < j < |slots| && slots[i].Held? && slots[j].Held? ::
              slots[i].p.space != slots[j].p.space
    ensures ok && b.placed ==> b.gathered == !UsableInPlace(BuffersOf(requests))
    ensures ok ==> forall i | 0 <= i < |requests| && resp.live[i] && model.outputName in requests[i].info.outputs ::
              slots[i].Held? && Exact(AsShipment(dev.gpuEnabled, requests, b, slots), dev.issued[|old(dev.issued)|..], i)
    ensures b.sync ==> dev.gpuEnabled && NeedsWait(BuffersOf(requests))
    ensures outputSync ==> dev.gpuEnabled && SomeOnDevice(slots)
    ensures ok && b.placed && !dev.refusals.any ==>
              && b.sync == (dev.gpuEnabled && NeedsWait(BuffersOf(requests)))
              && outputSync == (dev.gpuEnabled && SomeOnDevice(slots))
    ensures ok && !(dev.gpuEnabled && NeedsWait(BuffersOf(requests))) ==>
              Carried(dev.Settled(), old(dev.mem), model.outputName, requests, slots, resp.live)
    ensures ok && !(dev.gpuEnabled && NeedsWait(BuffersOf(requests))) && !(dev.gpuEnabled && SomeOnDevice(slots)) ==>
              Carried(dev.mem, old(dev.mem), model.outputName, requests, slots, resp.live)
  {
    hide WellSized, Usable, BuffersOf, NeedsWait, SomeOnDevice, Exact, UsableInPlace, AsShipment, Carried, HandedOut;
    hide HostTypes, AnyLive, Sized;
    released, b := seq(|requests|, _ => 0), Batched(Tensor(Loc(Caller(Cpu, 0), 0), 0), false, false, false);
    outputSync, slots := false, [];
    ok, resp := CreateResponses(dev, |requests|);
    if !ok {
      return;
    }
    b, outputSync, slots := Serve(dev, resp, model, requests, inputs);
    resp.SendRemaining();
    var r := 0;
    while r < |requests|
      invariant r <= |requests| == |released|
      invariant forall i | 0 <= i < |released| :: released[i] == if i < r then 1 else 0
    {
      released := released[r := released[r] + 1];
      r := r + 1;
    }
  }

  /** In every schedule of what the host has issued, and from every memory, response i
      carries its bytes, and carries them when it is sent, exactly if the shipment says so. */
  ghost predicate Exact(s: Shipment, log: seq<Issue>, i: nat) {
    && i < |s.bs| == |s.slots|
    && (s.AlwaysCarries(log, i) <==> s.Carries(i))
    && (s.AlwaysInTime(log, i) <==> s.CarriesInTime(i))
  }

  lemma {:induction false} AllExactly(gpu: bool, requests: seq<RequestData>, b: Batched, slots: seq<Slot>,
                                      inputs: iset<Loc>, ops0: seq<Issue>, ops1: seq<Issue>, ops2: seq<Issue>,
                                      live1: seq<bool>, live2: seq<bool>)
    requires ops0 <= ops1 <= ops2 && OnlyNulled(live1, live2) && |slots| == |requests| == |live2|
    requires AsShipment(gpu, requests, b, slots).Placed(inputs)
    requires Shipment(gpu, BuffersOf(requests), b.t, b.gathered, []).InputsIssued(ops1[|ops0|..], live1)
    requires AsShipment(gpu, requests, b, slots).OutputsIssued(ops2[|ops1|..], live2)
    ensures forall i | 0 <= i < |requests| && live2[i] && slots[i].Held? ::
              Exact(AsShipment(gpu, requests, b, slots), ops2[|ops0|..], i)
  {
    hide Shipment.Placed, Shipment.InputsIssued, Shipment.OutputsIssued, BuffersOf, Exact;
    forall i | 0 <= i < |requests| && live2[i] && slots[i].Held?
      ensures Exact(AsShipment(gpu, requests, b, slots), ops2[|ops0|..], i)
    {
      Exactly(gpu, requests, b, slots, inputs, ops0, ops1, ops2, live1, live2, i);
    }
  }

  /** The two parts of what was issued, put together. */
  lemma {:induction false} Exactly(gpu: bool, requests: seq<RequestData>, b: Batched, slots: seq<Slot>, inputs: iset<Loc>,
                                   ops0: seq<Issue>, ops1: seq<Issue>, ops2: seq<Issue>, live1: seq<bool>,
                                   live2: seq<bool>, i: nat)
    requires ops0 <= ops1 <= ops2 && OnlyNulled(live1, live2) && i < |slots| == |requests| == |live2|
    requires AsShipment(gpu, requests, b, slots).Placed(inputs) && live2[i] && slots[i].Held?
    requires Shipment(gpu, BuffersOf(requests), b.t, b.gathered, []).InputsIssued(ops1[|ops0|..], live1)
    requires AsShipment(gpu, requests, b, slots).OutputsIssued(ops2[|ops1|..], live2)
    ensures Exact(AsShipment(gpu, requests, b, slots), ops2[|ops0|..], i)
  {
    hide Shipment.Placed, Shipment.Carries, Shipment.CarriesInTime, Shipment.AlwaysCarries, Shipment.AlwaysInTime, BuffersOf;
    var shipment, log, n := AsShipment(gpu, requests, b, slots), ops2[|ops0|..], |ops1| - |ops0|;
    assert log[..n] == ops1[|ops0|..] && log[n..] == ops2[|ops1|..];
    SameInputs(shipment, log[..n], live1, live2);
    BuffersLength(requests);
    CarriesExactlyWhen(shipment, log, n, live2, inputs, i);
    InTimeExactlyWhen(shipment, log, n, live2, inputs, i);
  }

  lemma {:induction false} SameIssues(b0: Shipment, b: Shipment)
    requires b0 == b.(slots := [])
    ensures b0.All() == b.All() && forall j | 0 <= j < |b.All()| :: b.InputIssue(j) == b0.InputIssue(j)
  {
    hide Total, Delivered;
  }

  lemma {:induction false} SameInputs(b: Shipment, ops: seq<Issue>, live0: seq<bool>, live1: seq<bool>)
    requires b.(slots := []).InputsIssued(ops, live0) && OnlyNulled(live0, live1)
    ensures b.InputsIssued(ops, live1)
  {
    hide Total, Delivered, Shipment.InputIssue;
    var b0 := b.(slots := []);
    SameIssues(b0, b);
    forall op | op in ops
      ensures b.gathered && b.IsInput(op)
    {
      var j :| 0 <= j < |b0.All()| && op == b0.InputIssue(j);
      assert op == b.InputIssue(j);
    }
    if b.gathered && b.t.size > 0 {
      forall j | 0 <= j < |b.All()|
        ensures b.All()[j].req < |live1| && (live1[b.All()[j].req] ==> b.InputIssue(j) in ops)
      {
        assert b0.All()[j].req < |live0|;
      }
    }
  }

  /** Every success response that was asked for the output has, in m, its own
      request's input bytes. */
  ghost predicate Carried(m: Memory, orig: Memory, name: string, requests: seq<RequestData>, slots: seq<Slot>,
                          live: seq<bool>) {
    && |slots| == |requests| == |live|
    && forall i | 0 <= i < |requests| && live[i] && name in requests[i].info.outputs ::
         Reached(BuffersOf(requests), false, i) ==>
           && slots[i].Held?
           && Read(m, slots[i].p, InputSize(requests, i)) == Bytes(orig, PiecesOf(requests[i].buffers, i))
  }

  lemma {:induction false} StillDead(live0: seq<bool>, live1: seq<bool>)
    requires OnlyNulled(live0, live1)
    ensures !AnyLive(live0) ==> !AnyLive(live1)
  {}

  lemma {:induction false} HandedOutSince(slots: seq<Slot>, lo: nat, mid: nat, hi: nat)
    requires HandedOut(slots, mid, hi) && lo <= mid
    ensures HandedOut(slots, lo, hi)
  {}

  /** The slices of the batched tensor, which had gathered the requests' bytes. */
  lemma {:induction false} NowCarried(m: Memory, gathered: Memory, orig: Memory, name: string, requests: seq<RequestData>,
                                      b: Batched, slots: seq<Slot>, live0: seq<bool>, live1: seq<bool>)
    requires |slots| == |requests| == |live1| && OnlyNulled(live0, live1) && (!b.placed ==> !AnyLive(live0))
    requires b.placed ==> forall i | 0 <= i < |requests| && live0[i] && Reached(BuffersOf(requests), false, i) ::
               InBatch(gathered, orig, b.t, requests, i)
    requires forall i | 0 <= i < |requests| && live1[i] && name in requests[i].info.outputs ::
               slots[i].Held?
               && Read(m, slots[i].p, InputSize(requests, i))
                  == Read(gathered, b.t.ptr.Plus(Offset(BuffersOf(requests), i)), InputSize(requests, i))
    ensures Carried(m, orig, name, requests, slots, live1)
  {
    hide InputSize, Offset, Visited;
    forall i | 0 <= i < |requests| && live1[i] && name in requests[i].info.outputs && Reached(BuffersOf(requests), false, i)
      ensures slots[i].Held?
              && Read(m, slots[i].p, InputSize(requests, i)) == Bytes(orig, PiecesOf(requests[i].buffers, i))
    {
      assert live0[i] && AnyLive(live0);
      assert InBatch(gathered, orig, b.t, requests, i);
    }
  }

  lemma {:induction false} ExactLosses(live0: seq<bool>, live1: seq<bool>, f0: Refusals, f1: Refusals)
    requires Losses(live0, live1, f0, f1, iset{}) && f0.responses == iset{} && forall i | 0 <= i < |live0| :: live0[i]
    ensures |live0| == |live1| && forall i: nat | i < |live1| :: live1[i] <==> i !in f1.responses
  {}

  lemma {:induction false} EmptyPointers(requests: seq<RequestData>, typeSize: nat, batchn: Shape, firstDim: bool)
    requires WellSized(requests, typeSize, batchn, firstDim)
    ensures forall p | p in Flatten(BuffersOf(requests)) :: p.ptr.IsNull() ==> p.size == 0
  {}
}

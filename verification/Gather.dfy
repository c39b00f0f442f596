/** What a gather as a whole achieves: every request's bytes end up where the
    sizes of the requests before it say, whatever route they took. */
module Gather {
  import opened DeviceMemory
  import opened Devices
  import opened Responses
  import opened Delivery
  import opened InputIteration
  import opened InputBytes
  import opened GatherViews
  import opened GatherKernel
  import opened Collectors

  /** Where request i starts in the tensor: behind all earlier requests. */
  function Offset(reqs: seq<Request>, i: nat): nat
    requires i <= |reqs|
  {
    Total(Flatten(reqs[..i]))
  }

  lemma {:induction false} FirstOffset(reqs: seq<Request>)
    ensures Offset(reqs, 0) == 0
  {
    assert reqs[..0] == [];
  }

  lemma {:induction false} OffsetStep(reqs: seq<Request>, i: nat)
    requires i < |reqs|
    ensures Offset(reqs, 0) == 0
    ensures Offset(reqs, i + 1) == Offset(reqs, i) + Total(PiecesOf(reqs[i], i))
  {
    FlattenStep(reqs, i);
    TotalConcat(Flatten(reqs[..i]), PiecesOf(reqs[i], i));
    assert reqs[..0] == [];
  }

  /** The iterator gets to request i, or there is nothing in it to get to. */
  predicate Reached(reqs: seq<Request>, coalesce: bool, i: nat)
    requires i < |reqs|
  {
    i < Visited(reqs, coalesce) || reqs[i] == []
  }

  /** The iterator gets past the requests before i: with coalescing if the first has a buffer,
      without if they all have one. */
  lemma {:induction false} ReachedExactly(reqs: seq<Request>, coalesce: bool, i: nat)
    requires i < |reqs|
    ensures Reached(reqs, coalesce, i)
            <==> reqs[i] == [] || (if coalesce then reqs[0] != [] else forall j | 0 <= j < i :: reqs[j] != [])
  {
    var n := BeforeFirstEmpty(reqs);
    if i > n {
      assert reqs[n] == [];
    }
  }

  ghost predicate AllSettledIn(obs: seq<Obligation>, m: Memory, orig: Memory, live: seq<bool>) {
    forall ob | ob in obs :: Settled(ob, m, orig, live)
  }

  ghost predicate PieceArrived(m: Memory, orig: Memory, at: Loc, p: Piece) {
    forall l: Loc | In(l, at, p.size) :: m(l) == orig(Shift(l, at, p.ptr))
  }

  lemma {:induction false} ObligationAt(t: Tensor, a: seq<Chunk>, c: Chunk, b: seq<Chunk>)
    ensures Obligation(ToCopy(c, t, Sizes(a)), c.first, c.last) in CallObligations(t, a + [c] + b)
  {
    if b == [] {
      assert a + [c] + b == a + [c];
      CallObligationsStep(t, a, c);
    } else {
      ObligationAt(t, a, c, b[..|b| - 1]);
      assert a + [c] + b == (a + [c] + b[..|b| - 1]) + [b[|b| - 1]];
      CallObligationsStep(t, a + [c] + b[..|b| - 1], b[|b| - 1]);
    }
  }

  /** The obligation of a merged chunk delivers each piece it was merged from. */
  lemma {:induction false} PieceOfRun(t: Tensor, base: nat, run: seq<Piece>, m: Memory, orig: Memory, live: seq<bool>,
                                      k: nat)
    requires k < |run| && IsRun(run) && Ordered(run) && run[k].req < |live| && live[run[k].req]
    requires Settled(Obligation(ToCopy(Merge(run), t, base), Merge(run).first, Merge(run).last), m, orig, live)
    ensures PieceArrived(m, orig, t.ptr.Plus(base + Total(run[..k])), run[k])
  {
    RunOffset(run, k);
    assert run[0].req <= run[k].req <= run[|run| - 1].req;
    var ob := Obligation(ToCopy(Merge(run), t, base), Merge(run).first, Merge(run).last);
    var at := t.ptr.Plus(base + Total(run[..k]));
    forall l: Loc | In(l, at, run[k].size)
      ensures m(l) == orig(Shift(l, at, run[k].ptr))
    {
      assert In(l, ob.copy.dst, ob.copy.n);
      assert Shift(l, at, run[k].ptr) == Shift(l, ob.copy.dst, ob.copy.src);
    }
  }

  lemma {:induction false} TotalSplit(ps: seq<Piece>, n: nat, k: nat)
    requires n <= k <= |ps|
    ensures Total(ps[..k]) == Total(ps[..n]) + Total(ps[n..][..k - n])
  {
    assert ps[..k] == ps[..n] + ps[n..][..k - n];
    TotalConcat(ps[..n], ps[n..][..k - n]);
  }

  lemma {:induction false} OrderedParts(ps: seq<Piece>, n: nat)
    requires Ordered(ps) && n <= |ps|
    ensures Ordered(ps[..n]) && Ordered(ps[n..])
  {}

  /** Every delivered piece of a request that has not failed arrives behind the
      pieces before it. */
  lemma {:induction false} PieceArrives(t: Tensor, done: seq<Chunk>, ps: seq<Piece>, coalesce: bool,
                                        m: Memory, orig: Memory, live: seq<bool>, k: nat)
    requires Ordered(ps) && k < |ps| && ps[k].req < |live| && live[ps[k].req]
    requires AllSettledIn(CallObligations(t, done + Chunks(ps, coalesce)), m, orig, live)
    ensures PieceArrived(m, orig, t.ptr.Plus(Sizes(done) + Total(ps[..k])), ps[k])
    decreases |ps|
  {
    hide Settled, PieceArrived, CallObligations, IsRun, Total, RunLength, Ordered;
    var n := RunLength(ps, coalesce);
    var run, rest := ps[..n], ps[n..];
    var tail := Chunks(rest, coalesce);
    OrderedParts(ps, n);
    assert done + ([Merge(run)] + tail) == done + [Merge(run)] + tail;
    if k < n {
      ObligationAt(t, done, Merge(run), tail);
      PieceOfRun(t, Sizes(done), run, m, orig, live, k);
      assert run[..k] == ps[..k];
    } else {
      CallObligationsStep(t, done, Merge(run));
      PieceArrives(t, done + [Merge(run)], rest, coalesce, m, orig, live, k - n);
      TotalSplit(ps, n, k);
    }
  }

  /** Pieces that have arrived one behind the other read as their concatenation. */
  lemma {:induction false} Assemble(m: Memory, orig: Memory, at: Loc, ps: seq<Piece>)
    requires forall k | 0 <= k < |ps| :: PieceArrived(m, orig, at.Plus(Total(ps[..k])), ps[k])
    ensures Read(m, at, Total(ps)) == Bytes(orig, ps)
  {
    if ps != [] {
      var p, q := ps[..|ps| - 1], ps[|ps| - 1];
      forall k | 0 <= k < |p|
        ensures PieceArrived(m, orig, at.Plus(Total(p[..k])), p[k])
      {
        assert p[..k] == ps[..k];
        assert p[k] == ps[k];
      }
      Assemble(m, orig, at, p);
      LastPiece(m, orig, at, p, q);
      assert ps == p + [q];
    }
  }

  lemma {:induction false} LastPiece(m: Memory, orig: Memory, at: Loc, p: seq<Piece>, q: Piece)
    requires Read(m, at, Total(p)) == Bytes(orig, p)
    requires PieceArrived(m, orig, at.Plus(Total(p)), q)
    ensures Read(m, at, Total(p) + q.size) == Bytes(orig, p) + Read(orig, q.ptr, q.size)
  {
    var whole, parts := Read(m, at, Total(p) + q.size), Read(m, at, Total(p)) + Read(orig, q.ptr, q.size);
    forall i | 0 <= i < |whole|
      ensures whole[i] == parts[i]
    {
      if i >= Total(p) {
        var l := at.Plus(i);
        assert In(l, at.Plus(Total(p)), q.size);
        assert Shift(l, at.Plus(Total(p)), q.ptr) == q.ptr.Plus(i - Total(p));
      }
    }
  }

  /** A request whose response has not failed, and that the iterator gets to, has
      all its bytes at the sum of the earlier requests' sizes. */
  lemma {:induction false} RequestArrives(t: Tensor, reqs: seq<Request>, coalesce: bool,
                                          m: Memory, orig: Memory, live: seq<bool>, i: nat)
    requires |reqs| == |live| && i < |reqs| && live[i] && Reached(reqs, coalesce, i)
    requires AllSettledIn(CallObligations(t, Chunks(Delivered(reqs, coalesce), coalesce)), m, orig, live)
    ensures Read(m, t.ptr.Plus(Offset(reqs, i)), Total(PiecesOf(reqs[i], i))) == Bytes(orig, PiecesOf(reqs[i], i))
  {
    hide PieceArrived, AllSettledIn, Flatten, Chunks, CallObligations, Bytes, Total;
    var ps, d := PiecesOf(reqs[i], i), Delivered(reqs, coalesce);
    forall k | 0 <= k < |ps|
      ensures PieceArrived(m, orig, t.ptr.Plus(Offset(reqs, i)).Plus(Total(ps[..k])), ps[k])
    {
      var before := Flatten(reqs[..i]);
      DeliveredPiece(reqs, coalesce, i, k);
      assert [] + Chunks(d, coalesce) == Chunks(d, coalesce);
      PieceArrives(t, [], d, coalesce, m, orig, live, |before| + k);
      TotalConcat(before, ps[..k]);
      assert t.ptr.Plus(Offset(reqs, i)).Plus(Total(ps[..k])) == t.ptr.Plus(Total(before) + Total(ps[..k]));
    }
    Assemble(m, orig, t.ptr.Plus(Offset(reqs, i)), ps);
  }

  /** Buffer k of request i among the delivered pieces. */
  lemma {:induction false} DeliveredPiece(reqs: seq<Request>, coalesce: bool, i: nat, k: nat)
    requires i < |reqs| && k < |reqs[i]| && i < Visited(reqs, coalesce)
    ensures var d, before := Delivered(reqs, coalesce), Flatten(reqs[..i]);
            && |before| + k < |d| && Ordered(d) && d[|before| + k] == PiecesOf(reqs[i], i)[k]
            && d[..|before| + k] == before + PiecesOf(reqs[i], i)[..k]
  {
    var v := reqs[..Visited(reqs, coalesce)];
    assert v[..i] == reqs[..i];
    FlattenStep(v, i);
    FlattenOrdered(v);
    var f := Flatten(v[..i + 1]);
    assert Delivered(reqs, coalesce)[..|f|] == f;
  }

  /** The chunks of the input take as much room as what the iterator delivers. */
  lemma {:induction false} DeliveredSize(reqs: seq<Request>, coalesce: bool)
    ensures Sizes(Chunks(Delivered(reqs, coalesce), coalesce)) == Offset(reqs, Visited(reqs, coalesce))
  {
    ChunksSize(Delivered(reqs, coalesce), coalesce);
  }

  /** When no response has failed and nothing stands behind the end of the walk,
      the tensor starts with the concatenation of everything. */
  lemma {:induction false} AllArrive(t: Tensor, reqs: seq<Request>, coalesce: bool, m: Memory, orig: Memory,
                                     live: seq<bool>)
    requires |reqs| == |live| && (forall i | 0 <= i < |live| :: live[i]) && NothingBehindTheEnd(reqs, coalesce)
    requires AllSettledIn(CallObligations(t, Chunks(Delivered(reqs, coalesce), coalesce)), m, orig, live)
    ensures Read(m, t.ptr, Total(Flatten(reqs))) == Bytes(orig, Flatten(reqs))
  {
    hide PieceArrived, AllSettledIn, Chunks, Flatten;
    var f := Flatten(reqs);
    DeliveredIsEverything(reqs, coalesce);
    FlattenOrdered(reqs);
    assert [] + Chunks(f, coalesce) == Chunks(f, coalesce);
    forall k | 0 <= k < |f|
      ensures PieceArrived(m, orig, t.ptr.Plus(Total(f[..k])), f[k])
    {
      PieceArrives(t, [], f, coalesce, m, orig, live, k);
    }
    Assemble(m, orig, t.ptr, f);
  }

  // ---------------------------------------------------------------------------
  // A whole gather
  // ---------------------------------------------------------------------------

  /** One input of the batch, and the buffer it is to be gathered into. */
  datatype Call = Call(requests: seq<Request>, t: Tensor) {
    ghost predicate Ok(count: nat, inputs: iset<Loc>) {
      && |requests| == count
      && (forall p | p in Flatten(requests) :: Within(p.ptr, p.size, inputs))
      && (forall l: Loc | In(l, t.ptr, t.size) :: l !in inputs && !l.space.Staging?)
    }

    /** Every response that is left, and that the iterator gets to, has all its bytes
        behind those of the requests before it; and if none has failed, and nothing
        stands behind the end of the walk, the tensor starts with everything. */
    ghost predicate Delivers(m: Memory, orig: Memory, coalesce: bool, live: seq<bool>) {
      && |requests| == |live|
      && ((forall i | 0 <= i < |live| :: live[i]) && NothingBehindTheEnd(requests, coalesce) ==>
            Read(m, t.ptr, Total(Flatten(requests))) == Bytes(orig, Flatten(requests)))
      && forall i | 0 <= i < |live| && live[i] && Reached(requests, coalesce, i) ::
        Read(m, t.ptr.Plus(Offset(requests, i)), Total(PiecesOf(requests[i], i))) == Bytes(orig, PiecesOf(requests[i], i))
    }

    /** The chunks the walk will give to the tensor. */
    function Given(coalesce: bool): seq<Chunk> {
      Chunks(Delivered(requests, coalesce), coalesce)
    }

    predicate Fits(coalesce: bool) {
      Offset(requests, Visited(requests, coalesce)) <= t.size
    }

    /** What may be given to a gather kernel fits its 32-bit ints. */
    predicate SafeForKernel(coalesce: bool, threshold: nat) {
      KernelFits(Given(coalesce), t, threshold)
    }

    /** The responses with a part in a chunk that the tensor has no room for. */
    ghost function TooLong(coalesce: bool): iset<nat> {
      Unfit(Given(coalesce), t)
    }

    /** A byte of the tensor behind the requests that the iterator gets to. */
    predicate Behind(l: Loc, coalesce: bool) {
      In(l, t.ptr, t.size) && t.ptr.addr + Offset(requests, Visited(requests, coalesce)) <= l.addr
    }

    /** What lies there is still what lay there before. */
    ghost predicate KeepsRest(m: Memory, orig: Memory, coalesce: bool) {
      forall l: Loc | Behind(l, coalesce) :: m(l) == orig(l)
    }

    function Obligations(coalesce: bool): seq<Obligation> {
      CallObligations(t, Chunks(Delivered(requests, coalesce), coalesce))
    }
  }

  ghost predicate InTooLong(calls: seq<Call>, coalesce: bool, k: nat, i: nat)
    requires k <= |calls|
  {
    exists j | 0 <= j < k :: i in calls[j].TooLong(coalesce)
  }

  /** The responses that one of the first k tensors has no room for. */
  ghost function NoRoom(calls: seq<Call>, coalesce: bool, k: nat): iset<nat>
    requires k <= |calls|
  {
    iset i: nat | InTooLong(calls, coalesce, k, i)
  }

  lemma {:induction false} NoRoomStep(calls: seq<Call>, coalesce: bool, k: nat)
    requires k < |calls|
    ensures NoRoom(calls, coalesce, 0) == iset{}
    ensures NoRoom(calls, coalesce, k + 1) == NoRoom(calls, coalesce, k) + calls[k].TooLong(coalesce)
    ensures calls[k].TooLong(coalesce) == Unfit(Chunks(Delivered(calls[k].requests, coalesce), coalesce), calls[k].t)
  {
    hide Unfit;
    forall i: nat
      ensures InTooLong(calls, coalesce, k + 1, i) <==> InTooLong(calls, coalesce, k, i) || i in calls[k].TooLong(coalesce)
    {}
  }

  /** Tensors that are large enough have room for every response. */
  lemma {:induction false} RoomForCalls(calls: seq<Call>, coalesce: bool, k: nat)
    requires k <= |calls| && forall j | 0 <= j < k :: calls[j].Fits(coalesce)
    ensures NoRoom(calls, coalesce, k) == iset{}
  {
    hide Unfit, Chunks, Delivered, Visited;
    forall j | 0 <= j < k
      ensures calls[j].TooLong(coalesce) == iset{}
    {
      DeliveredSize(calls[j].requests, coalesce);
      RoomForAll(calls[j].Given(coalesce), calls[j].t);
    }
  }

  ghost predicate Disjoint(calls: seq<Call>) {
    forall j, k | 0 <= j < k < |calls| :: Apart(calls[k].t.ptr, calls[k].t.size, calls[j].t.ptr, calls[j].t.size)
  }

  /** l belongs to the destination of one of the first k calls. */
  ghost predicate InDestination(l: Loc, calls: seq<Call>, k: nat)
    requires k <= |calls|
  {
    exists j | 0 <= j < k :: In(l, calls[j].t.ptr, calls[j].t.size)
  }

  lemma {:induction false} CallDelivers(call: Call, count: nat, inputs: iset<Loc>, coalesce: bool, m: Memory,
                                        orig: Memory,
                                        live: seq<bool>)
    requires call.Ok(count, inputs) && |live| == count
    requires AllSettledIn(call.Obligations(coalesce), m, orig, live)
    ensures call.Delivers(m, orig, coalesce, live)
  {
    forall i | 0 <= i < |live| && live[i] && Reached(call.requests, coalesce, i)
      ensures Read(m, call.t.ptr.Plus(Offset(call.requests, i)), Total(PiecesOf(call.requests[i], i)))
           == Bytes(orig, PiecesOf(call.requests[i], i))
    {
      RequestArrives(call.t, call.requests, coalesce, m, orig, live, i);
    }
    if (forall i | 0 <= i < |live| :: live[i]) && NothingBehindTheEnd(call.requests, coalesce) {
      AllArrive(call.t, call.requests, coalesce, m, orig, live);
    }
  }

  /** The response of a request that the iterator does not get to carries its bytes only
      if they happened to be in the tensor before. */
  lemma {:induction false} UnreachedKeeps(call: Call, m: Memory, orig: Memory, coalesce: bool, i: nat)
    requires call.KeepsRest(m, orig, coalesce) && Visited(call.requests, coalesce) <= i < |call.requests|
    requires Offset(call.requests, i + 1) <= call.t.size
    ensures var at, ps := call.t.ptr.Plus(Offset(call.requests, i)), PiecesOf(call.requests[i], i);
            Read(m, at, Total(ps)) == Bytes(orig, ps) <==> Read(orig, at, Total(ps)) == Bytes(orig, ps)
  {
    hide Offset, Visited;
    var at, n := call.t.ptr.Plus(Offset(call.requests, i)), Total(PiecesOf(call.requests[i], i));
    OffsetStep(call.requests, i);
    OffsetGrows(call.requests, Visited(call.requests, coalesce), i);
    forall y | 0 <= y < n
      ensures Read(m, at, n)[y] == Read(orig, at, n)[y]
    {
      assert call.Behind(at.Plus(y), coalesce);
    }
    assert Read(m, at, n) == Read(orig, at, n);
  }

  lemma {:induction false} OffsetGrows(reqs: seq<Request>, i: nat, j: nat)
    requires i <= j <= |reqs|
    ensures Offset(reqs, i) <= Offset(reqs, j)
  {
    if i < j {
      OffsetStep(reqs, j - 1);
      OffsetGrows(reqs, i, j - 1);
    }
  }

  /** Gathering into the next tensor writes nothing behind the others' requests, nor
      behind its own. */
  ghost predicate RestUnwritten(calls: seq<Call>, coalesce: bool, k: nat, r: Regions)
    requires k <= |calls|
  {
    forall j | 0 <= j < k :: TailUnwritten(calls[j].t, Sizes(calls[j].Given(coalesce)), r)
  }

  lemma {:induction false} NothingGathered(calls: seq<Call>, coalesce: bool, r: Regions)
    ensures RestUnwritten(calls, coalesce, 0, r)
  {}

  lemma {:induction false} RestStays(calls: seq<Call>, coalesce: bool, k: nat, r0: Regions, r1: Regions)
    requires k < |calls| && Disjoint(calls) && RestUnwritten(calls, coalesce, k, r0)
    requires r0.SpendsOnly(r1, calls[k].t.ptr, calls[k].t.size)
    requires TailUnwritten(calls[k].t, Sizes(calls[k].Given(coalesce)), r1)
    ensures RestUnwritten(calls, coalesce, k + 1, r1)
  {
    hide Call.Given, Sizes;
    forall j | 0 <= j < k
      ensures TailUnwritten(calls[j].t, Sizes(calls[j].Given(coalesce)), r1)
    {
      assert Apart(calls[k].t.ptr, calls[k].t.size, calls[j].t.ptr, calls[j].t.size);
    }
  }

  lemma {:induction false} RestKept(calls: seq<Call>, coalesce: bool, k: nat, r: Regions, m: Memory, orig: Memory)
    requires k < |calls| && RestUnwritten(calls, coalesce, |calls|, r) && Untouched(m, orig, r)
    requires forall l: Loc | In(l, calls[k].t.ptr, calls[k].t.size) :: !l.space.Staging?
    ensures calls[k].KeepsRest(m, orig, coalesce)
  {
    hide Offset, Visited, Sizes, Chunks, Delivered;
    DeliveredSize(calls[k].requests, coalesce);
    assert TailUnwritten(calls[k].t, Sizes(calls[k].Given(coalesce)), r);
  }

  /** The life of a collector: any number of inputs, one Finalize, and a wait only
      if Finalize asks for one.  As long as all that may go to a gather kernel fits its
      ints, no kernel goes astray.  If none has, then every response that is left, and
      that the iterator gets to, has all its bytes of every input in place, and no byte
      elsewhere has changed, neither outside the tensors nor behind the requests that the
      iterator gets to.  Whatever becomes of the kernels, a response is lost exactly if a
      copy that was for it was refused or a tensor has no room for a chunk it has a part
      in. */
  method GatherBatch(dev: Device, resp: ResponseSet, pinnedEnabled: bool, useEvent: bool, readyEvent: bool,
                     kernelThreshold: nat, copyOnStream: bool, coalesce: bool, calls: seq<Call>, ghost inputs: iset<Loc>)
    requires resp.Valid() && |resp.live| > 0 && dev.stream == [] && dev.refusals == Refusals(false, iset{})
    requires !(readyEvent && dev.gpuEnabled) ==> dev.bufferReady
    requires forall l | l in inputs :: !l.space.Staging?
    requires (forall k | 0 <= k < |calls| :: calls[k].Ok(|resp.live|, inputs)) && Disjoint(calls)
    requires !dev.astray
    modifies dev, resp
    ensures resp.Valid() && OnlyNulled(old(resp.live), resp.live) && dev.stream == []
    ensures (forall k | 0 <= k < |calls| :: calls[k].SafeForKernel(coalesce, kernelThreshold)) ==> !dev.astray
    ensures !dev.astray ==> forall k | 0 <= k < |calls| :: calls[k].Delivers(dev.mem, old(dev.mem), coalesce, resp.live)
    ensures !dev.astray ==> forall k | 0 <= k < |calls| :: calls[k].KeepsRest(dev.mem, old(dev.mem), coalesce)
    ensures !dev.astray ==>
              forall l: Loc | !InDestination(l, calls, |calls|) && !l.space.Staging? :: dev.mem(l) == old(dev.mem)(l)
    ensures forall i: nat | i < |resp.live| :: resp.live[i] <==>
              old(resp.live)[i] && i !in dev.refusals.responses
              && forall k | 0 <= k < |calls| :: i !in calls[k].TooLong(coalesce)
    ensures !dev.refusals.any && (forall k | 0 <= k < |calls| :: calls[k].Fits(coalesce)) ==> resp.live == old(resp.live)
  {
    hide InputCollector.Idle, Settled, Call.Delivers, CallObligations, Chunks, Delivered, Regions.Grant, Visited;
    hide Losses, NoRoom, Call.TooLong, KernelFits, Call.KeepsRest, RestUnwritten, Regions.SpendsOnly;
    NothingGathered(calls, coalesce, Regions(inputs, iset{}, iset{}));
    var c := new InputCollector(dev, resp, pinnedEnabled, useEvent, readyEvent, kernelThreshold, copyOnStream, coalesce,
                                inputs);
    GatherEach(c, calls, inputs);
    ghost var live1, f1 := resp.live, dev.refusals;
    var sync := c.Finalize();
    WholeLoss(calls, coalesce, old(resp.live), live1, resp.live, old(dev.refusals), f1, dev.refusals);
    if sync {
      if useEvent {
        assert dev.stream[..|dev.stream|] == dev.stream;
        dev.SynchronizeEvent();
      } else {
        dev.SynchronizeStream();
      }
    }
    forall j | 0 <= j < |calls|
      ensures calls[j].Delivers(dev.mem, old(dev.mem), coalesce, resp.live)
    {
      CallDelivers(calls[j], |resp.live|, inputs, coalesce, dev.mem, old(dev.mem), resp.live);
    }
    forall j | 0 <= j < |calls|
      ensures calls[j].KeepsRest(dev.mem, old(dev.mem), coalesce)
    {
      RestKept(calls, coalesce, j, c.r, dev.mem, old(dev.mem));
    }
  }

  /** Gathers one input after the other. */
  method GatherEach(c: InputCollector, calls: seq<Call>, ghost inputs: iset<Loc>)
    requires c.Idle() && c.r == Regions(inputs, iset{}, iset{}) && c.count == |c.resp.live| > 0 && !c.dev.astray
    requires (forall k | 0 <= k < |calls| :: calls[k].Ok(c.count, inputs)) && Disjoint(calls)
    requires RestUnwritten(calls, c.coalesce, 0, c.r)
    modifies c, c.dev, c.resp
    ensures c.Idle() && |c.resp.live| == c.count && c.r.inputs == inputs
    ensures Losses(old(c.resp.live), c.resp.live, old(c.dev.refusals), c.dev.refusals, NoRoom(calls, c.coalesce, |calls|))
    ensures forall l | l in c.r.dests :: InDestination(l, calls, |calls|)
    ensures RestUnwritten(calls, c.coalesce, |calls|, c.r)
    ensures (forall k | 0 <= k < |calls| :: calls[k].SafeForKernel(c.coalesce, c.kernelThreshold)) ==> !c.dev.astray
    ensures forall k | 0 <= k < |calls| :: forall ob | ob in calls[k].Obligations(c.coalesce) :: ob in c.obls
  {
    hide InputCollector.Idle, CallObligations, Chunks, Delivered, Regions.Grant, Visited;
    hide Losses, NoRoom, Call.TooLong, KernelFits, RestUnwritten, Regions.SpendsOnly;
    NoLosses(c.resp.live, c.dev.refusals);
    RoomForCalls(calls, c.coalesce, 0);
    var k := 0;
    while k < |calls|
      invariant k <= |calls| && c.Idle() && c.r.inputs == inputs && |c.resp.live| == c.count
      invariant Losses(old(c.resp.live), c.resp.live, old(c.dev.refusals), c.dev.refusals, NoRoom(calls, c.coalesce, k))
      invariant forall l | l in c.r.dests :: InDestination(l, calls, k)
      invariant RestUnwritten(calls, c.coalesce, k, c.r)
      invariant (forall j | 0 <= j < k :: calls[j].SafeForKernel(c.coalesce, c.kernelThreshold)) ==> !c.dev.astray
      invariant forall j | 0 <= j < k :: forall ob | ob in calls[j].Obligations(c.coalesce) :: ob in c.obls
    {
      NewDestination(calls, k);
      ghost var r0, live, f := c.r, c.resp.live, c.dev.refusals;
      NoRoomStep(calls, c.coalesce, k);
      c.ProcessTensor(calls[k].requests, calls[k].t);
      LossesJoin(old(c.resp.live), live, c.resp.live, old(c.dev.refusals), f, c.dev.refusals, NoRoom(calls, c.coalesce, k),
                 calls[k].TooLong(c.coalesce));
      Granted(r0, calls, k);
      RestStays(calls, c.coalesce, k, r0, c.r);
      k := k + 1;
    }
  }

  /** What a batch has lost in the end. */
  lemma {:induction false} WholeLoss(calls: seq<Call>, coalesce: bool, live0: seq<bool>, live1: seq<bool>,
                                     live2: seq<bool>, f0: Refusals, f1: Refusals, f2: Refusals)
    requires Losses(live0, live1, f0, f1, NoRoom(calls, coalesce, |calls|)) && Losses(live1, live2, f1, f2, iset{})
    requires f0 == Refusals(false, iset{})
    ensures OnlyNulled(live0, live2)
    ensures forall i: nat | i < |live2| :: live2[i] <==>
              live0[i] && i !in f2.responses && forall k | 0 <= k < |calls| :: i !in calls[k].TooLong(coalesce)
    ensures !f2.any && (forall k | 0 <= k < |calls| :: calls[k].Fits(coalesce)) ==> live2 == live0
  {
    hide Call.TooLong;
    LossesJoin(live0, live1, live2, f0, f1, f2, NoRoom(calls, coalesce, |calls|), iset{});
    if !f2.any && forall k | 0 <= k < |calls| :: calls[k].Fits(coalesce) {
      RoomForCalls(calls, coalesce, |calls|);
      NothingLost(live0, live2, f0, f2, NoRoom(calls, coalesce, |calls|));
    }
  }

  lemma {:induction false} NewDestination(calls: seq<Call>, k: nat)
    requires k < |calls| && Disjoint(calls)
    ensures forall l: Loc | In(l, calls[k].t.ptr, calls[k].t.size) :: !InDestination(l, calls, k)
  {}

  lemma {:induction false} Granted(r: Regions, calls: seq<Call>, k: nat)
    requires k < |calls| && forall l | l in r.dests :: InDestination(l, calls, k)
    ensures forall l | l in r.Grant(calls[k].t.ptr, calls[k].t.size).dests :: InDestination(l, calls, k + 1)
  {}
}

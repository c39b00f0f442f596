/** What a scatter as a whole achieves: every response that is left, and wants an
    output, holds its slice of the tensor. */
module Scatter {
  import opened DeviceMemory
  import opened Devices
  import opened Responses
  import opened Delivery
  import opened GatherViews
  import opened ScatterViews
  import opened Shapes
  import opened LateCopies
  import opened Responders

  /** One tensor to scatter: as an output, as a state, or as a batch output whose
      unknown dimensions come from an input. */
  datatype Product =
    | Output(name: string, typeSize: nat, batchn: Shape, t: Loc, requests: seq<RequestInfo>)
    | State(typeSize: nat, batchn: Shape, t: Loc, requests: seq<RequestInfo>)
    | Batch(name: string, typeSize: nat, out: Shape, t: Loc, requests: seq<RequestInfo>)
  {
    predicate Ok(firstDim: bool, count: nat) {
      && |requests| == count
      && match this
         case Output(_, typeSize, batchn, _, _) => Splittable(requests, typeSize, batchn, firstDim)
         case State(typeSize, batchn, _, _) => Splittable(requests, typeSize, batchn, firstDim)
         case Batch(_, typeSize, out, _, _) => Scatterable(requests, typeSize, out)
    }

    function TheCut(firstDim: bool): Cut
      requires Ok(firstDim, |requests|)
    {
      match this
      case Output(name, typeSize, batchn, t, _) =>
        Cut(t, SizesFor(requests, typeSize, batchn, firstDim), Wanting(requests, name))
      case State(typeSize, batchn, t, _) => Cut(t, SizesFor(requests, typeSize, batchn, firstDim), AllWanting(|requests|))
      case Batch(name, typeSize, out, t, _) => Cut(t, ScatterSizes(requests, typeSize, out), Wanting(requests, name))
    }

    /** How many bytes the tensor must have: as many as its shape says, if it has a batch
        size, and else as many as all slices. */
    function Size(firstDim: bool): (size: nat)
      requires Ok(firstDim, |requests|)
      ensures if !Batch? && firstDim && batchn[0] != -1 then size == GetByteSize(typeSize, batchn)
              else size == SumTo(TheCut(firstDim).sizes, |requests|)
    {
      assert !Batch? ==> batchn == [batchn[0]] + batchn[1..];
      match this
      case Output(_, typeSize, batchn, _, _) => TensorSize(requests, typeSize, batchn, firstDim)
      case State(typeSize, batchn, _, _) => TensorSize(requests, typeSize, batchn, firstDim)
      case Batch(_, typeSize, out, _, _) => SumTo(ScatterSizes(requests, typeSize, out), |requests|)
    }

    /** The model produced at least as many rows as the first n requests have. */
    predicate EnoughRows(firstDim: bool, n: nat)
      requires Ok(firstDim, |requests|) && n <= |requests|
    {
      !Batch? && firstDim && batchn[0] != WILDCARD_DIM ==> RowsOf(requests, n) <= batchn[0]
    }

    predicate RowsForEveryone(firstDim: bool) {
      Ok(firstDim, |requests|) && EnoughRows(firstDim, |requests|)
    }

    predicate Lacks(firstDim: bool, i: nat) {
      Ok(firstDim, |requests|) && i < |requests| && !EnoughRows(firstDim, i + 1)
    }

    /** The responses that the model produced too few rows for. */
    ghost function TooShort(firstDim: bool): iset<nat> {
      iset i: nat | Lacks(firstDim, i)
    }

    /** Only who wants a slice has a buffer for one; and every response that is left and
        wants its slice has, in m, a buffer with exactly the bytes the tensor had there in
        orig. */
    ghost predicate Delivers(firstDim: bool, slots: seq<Slot>, m: Memory, orig: Memory, live: seq<bool>)
      requires Ok(firstDim, |live|)
    {
      var cut := TheCut(firstDim);
      && |slots| == |live| && (forall i | 0 <= i < |live| && slots[i].Held? :: cut.wants[i])
      && forall i | 0 <= i < |live| && live[i] && cut.wants[i] ::
        slots[i].Held? && Read(m, slots[i].p, cut.sizes[i]) == Read(orig, cut.SliceAt(i), cut.sizes[i])
    }
  }

  /** All slots of a cut are accounted for. */
  ghost predicate Kept(cut: Cut, slots: seq<Slot>, live: seq<bool>, obls: seq<Obligation>) {
    && |slots| == |live| == |cut.sizes| == |cut.wants|
    && (forall i | 0 <= i < |live| && slots[i].Held? :: cut.wants[i])
    && forall i | 0 <= i < |live| :: cut.Answered(i, slots, live, obls)
  }

  lemma {:induction false} StillKept(cut: Cut, slots: seq<Slot>, live0: seq<bool>, live1: seq<bool>,
                                     obls0: seq<Obligation>, obls1: seq<Obligation>)
    requires Kept(cut, slots, live0, obls0) && OnlyNulled(live0, live1) && forall ob | ob in obls0 :: ob in obls1
    ensures Kept(cut, slots, live1, obls1)
  {
    forall i | 0 <= i < |live1|
      ensures cut.Answered(i, slots, live1, obls1)
    {
      assert cut.Answered(i, slots, live0, obls0);
    }
  }

  /** Settled obligations deliver every slice. */
  lemma {:induction false} SlicesArrive(p: Product, firstDim: bool, slots: seq<Slot>, live: seq<bool>,
                                        obls: seq<Obligation>,
                                        m: Memory, orig: Memory)
    requires p.Ok(firstDim, |live|) && Kept(p.TheCut(firstDim), slots, live, obls)
    requires forall ob | ob in obls :: Settled(ob, m, orig, live)
    ensures p.Delivers(firstDim, slots, m, orig, live)
  {
    var cut := p.TheCut(firstDim);
    forall i | 0 <= i < |live| && live[i] && cut.wants[i]
      ensures slots[i].Held? && Read(m, slots[i].p, cut.sizes[i]) == Read(orig, cut.SliceAt(i), cut.sizes[i])
    {
      assert cut.Answered(i, slots, live, obls);
      SliceArrives(Obligation(Copy(cut.SliceAt(i), slots[i].p, cut.sizes[i]), i, i), m, orig, live);
    }
  }

  lemma {:induction false} SliceArrives(ob: Obligation, m: Memory, orig: Memory, live: seq<bool>)
    requires Settled(ob, m, orig, live) && ob.first == ob.last < |live| && live[ob.first]
    ensures Read(m, ob.copy.dst, ob.copy.n) == Read(orig, ob.copy.src, ob.copy.n)
  {
    forall k | 0 <= k < ob.copy.n
      ensures m(ob.copy.dst.Plus(k)) == orig(ob.copy.src.Plus(k))
    {
      assert Shift(ob.copy.dst.Plus(k), ob.copy.dst, ob.copy.src) == ob.copy.src.Plus(k);
    }
  }

  /** What there is to say about copies to responses that had been sent: those tried for
      lost slices, and those of Finalize with what had been issued and the responses that
      were left before it. */
  datatype Afterwards = Afterwards(again: seq<Try>, ops: seq<Issue>, left: seq<bool>, tries: seq<Try>)

  /** Each buffer was handed out, as a region between the serials lo and hi, for the response
      it is to be filled for. */
  ghost predicate HandedOut(slots: seq<Slot>, lo: nat, hi: nat) {
    forall i | 0 <= i < |slots| && slots[i].Held? ::
      slots[i].p.space.IsFor(i) && lo <= slots[i].p.space.ownedSerial < hi
  }

  /** No two buffers share a region. */
  ghost predicate OwnRegions(slots: seq<seq<Slot>>) {
    forall j, h, k, i | 0 <= j < |slots| && 0 <= h < |slots[j]| && 0 <= k < |slots| && 0 <= i < |slots[k]| &&
                        slots[j][h].Held? && slots[k][i].Held? && (j != k || h != i) ::
      slots[j][h].p.space != slots[k][i].p.space
  }

  lemma {:induction false} NoRegions()
    ensures OwnRegions([])
  {}

  /** Buffers handed out later are in regions of their own. */
  lemma {:induction false} RegionsGrow(slots: seq<seq<Slot>>, more: seq<Slot>, lo: nat, mid: nat, hi: nat)
    requires OwnRegions(slots) && lo <= mid <= hi && forall k | 0 <= k < |slots| :: HandedOut(slots[k], lo, mid)
    requires HandedOut(more, mid, hi)
    ensures OwnRegions(slots + [more])
    ensures forall k | 0 <= k < |slots + [more]| :: HandedOut((slots + [more])[k], lo, hi)
  {}

  /** With enough rows for all there are enough for each. */
  lemma {:induction false} RowsForAll(p: Product, firstDim: bool)
    requires p.RowsForEveryone(firstDim)
    ensures p.TooShort(firstDim) == iset{}
  {
    if !p.Batch? && firstDim && p.batchn[0] != WILDCARD_DIM {
      forall n | 0 < n <= |p.requests|
        ensures RowsOf(p.requests, n) <= RowsOf(p.requests, |p.requests|)
      {
        RowsGrow(p.requests, n, |p.requests|);
      }
    }
  }

  ghost predicate Lacking(products: seq<Product>, firstDim: bool, k: nat, i: nat)
    requires k <= |products|
  {
    exists j | 0 <= j < k :: i in products[j].TooShort(firstDim)
  }

  /** The responses that one of the first k products has too few rows for. */
  ghost function NoRows(products: seq<Product>, firstDim: bool, k: nat): iset<nat>
    requires k <= |products|
  {
    iset i: nat | Lacking(products, firstDim, k, i)
  }

  lemma {:induction false} NoRowsStep(products: seq<Product>, firstDim: bool, k: nat)
    requires k < |products|
    ensures NoRows(products, firstDim, k + 1) == NoRows(products, firstDim, k) + products[k].TooShort(firstDim)
  {
    hide Product.TooShort, Product.Ok;
    forall i: nat
      ensures Lacking(products, firstDim, k + 1, i)
              <==> Lacking(products, firstDim, k, i) || i in products[k].TooShort(firstDim)
    {}
  }

  lemma {:induction false} NoRowsNone(products: seq<Product>, firstDim: bool)
    ensures NoRows(products, firstDim, 0) == iset{}
  {}

  /** What a batch has lost in the end. */
  lemma {:induction false} WholeLoss(products: seq<Product>, firstDim: bool, live0: seq<bool>, live1: seq<bool>,
                                     live2: seq<bool>, f0: Refusals, f1: Refusals, f2: Refusals)
    requires Losses(live0, live1, f0, f1, NoRows(products, firstDim, |products|)) && Losses(live1, live2, f1, f2, iset{})
    requires f0 == Refusals(false, iset{})
    ensures OnlyNulled(live0, live2) && OnlyNulled(live1, live2) && f1.UpTo(f2)
    ensures forall i: nat | i < |live2| :: live2[i] <==>
              live0[i] && i !in f2.responses && forall k | 0 <= k < |products| :: i !in products[k].TooShort(firstDim)
    ensures !f2.any && (forall k | 0 <= k < |products| :: products[k].RowsForEveryone(firstDim)) ==> live2 == live0
  {
    hide Product.TooShort, Product.Ok, Product.EnoughRows;
    LossesJoin(live0, live1, live2, f0, f1, f2, NoRows(products, firstDim, |products|), iset{});
    OnlyLosses(live1, live2, f1, f2, iset{});
    if !f2.any && forall k | 0 <= k < |products| :: products[k].RowsForEveryone(firstDim) {
      forall k | 0 <= k < |products|
        ensures products[k].TooShort(firstDim) == iset{}
      {
        RowsForAll(products[k], firstDim);
      }
      assert NoRows(products, firstDim, |products|) == iset{};
      NothingLost(live0, live2, f0, f2, NoRows(products, firstDim, |products|));
    }
  }

  /** Destinations are regions allocated since lo. */
  ghost predicate AllocatedSince(dests: iset<Loc>, lo: nat) {
    forall l | l in dests :: l.space.Owned? && l.space.ownedSerial >= lo
  }

  /** The life of a responder: any number of tensors, one Finalize, and a wait only
      if Finalize asks for one.  Every response that is left holds its slice of
      every tensor it wants, nothing but newly allocated memory has changed, and a
      response is lost exactly if a copy or a call that was for it was refused or a
      model's batch has too few rows to get to it.  What has been issued tells to which
      responses copies were issued after they had been sent: exactly to those for which one
      was issued for a lost slice, or by Finalize when the response was no longer left;
      never without staging memory. */
  method ScatterBatch(dev: Device, resp: ResponseSet, firstDim: bool, pinnedEnabled: bool, useEvent: bool,
                      copyOnStream: bool, products: seq<Product>, ghost tensors: iset<Loc>)
    returns (ghost slots: seq<seq<Slot>>, ghost a: Afterwards)
    requires resp.Valid() && dev.stream == [] && dev.bufferReady && dev.refusals == Refusals(false, iset{})
    requires forall l | l in tensors :: !l.space.Staging? && (l.space.Owned? ==> l.space.ownedSerial < dev.nextSerial)
    requires forall k | 0 <= k < |products| ::
               products[k].Ok(firstDim, |resp.live|) && Within(products[k].t, products[k].Size(firstDim), tensors)
    modifies dev, resp
    ensures resp.Valid() && OnlyNulled(old(resp.live), resp.live) && dev.stream == [] && |slots| == |products|
    ensures forall k | 0 <= k < |products| ::
              products[k].Ok(firstDim, |resp.live|)
              && products[k].Delivers(firstDim, slots[k], dev.mem, old(dev.mem), resp.live)
    ensures forall k | 0 <= k < |products| :: HandedOut(slots[k], old(dev.nextSerial), dev.nextSerial)
    ensures OwnRegions(slots)
    ensures forall l: Loc | !l.space.Staging? && !(l.space.Owned? && l.space.ownedSerial >= old(dev.nextSerial)) ::
              dev.mem(l) == old(dev.mem)(l)
    ensures forall i: nat | i < |resp.live| :: resp.live[i] <==>
              old(resp.live)[i] && i !in dev.refusals.responses
              && forall k | 0 <= k < |products| :: i !in products[k].TooShort(firstDim)
    ensures !dev.refusals.any && (forall k | 0 <= k < |products| :: products[k].RowsForEveryone(firstDim))
            ==> resp.live == old(resp.live)
    ensures forall i: nat ::
              WasLate(dev.issued, |old(dev.issued)|, old(resp.live), resp.live, resp.failedAt, i)
              <==> IsIssued(a.again, i) || IsLate(a.tries, a.left, i)
    ensures |a.ops| >= |old(dev.issued)| && dev.issued == a.ops + IssuesOf(a.tries, dev.gpuEnabled, copyOnStream)
    ensures forall t | t in a.again && t.issued ::
              HowIssued(t.copy, dev.gpuEnabled, copyOnStream) in a.ops[|old(dev.issued)|..]
    ensures LeftBy(a.tries, a.left, resp.live) && OnlyNulled(old(resp.live), a.left)
    ensures Sure(a.again + a.tries) && (a.again != [] ==> dev.refusals.any)
    ensures !pinnedEnabled ==> a.again == a.tries == []
  {
    hide OutputResponder.Idle, Settled, Product.Delivers, Product.TheCut, Product.Size, Answering, Kept, Within;
    hide SumTo, RowsOf, Losses, NoRows, Product.TooShort, HandedOut, OwnRegions, WasLate, IssuesOf, HowIssued, IsLate;
    hide IsIssued, LeftBy, Sure, Product.EnoughRows;
    NoLosses(resp.live, dev.refusals);
    NoRowsNone(products, firstDim);
    var o := new OutputResponder(dev, resp, firstDim, pinnedEnabled, useEvent, copyOnStream, tensors);
    slots := ScatterEach(o, products);
    ghost var live1, f1, ds, ops1 := resp.live, dev.refusals, o.deferred, dev.issued;
    OnlyLosses(old(resp.live), live1, old(dev.refusals), f1, NoRows(products, firstDim, |products|));
    AgainIssued(o);
    var sync;
    ghost var tries;
    sync, tries := o.Finalize();
    a := Afterwards(o.again, ops1, live1, tries);
    LateOnes(o, ds, tries, live1, ops1);
    WholeLoss(products, firstDim, old(resp.live), live1, resp.live, old(dev.refusals), f1, dev.refusals);
    if sync {
      if useEvent {
        assert dev.stream[..|dev.stream|] == dev.stream;
        dev.SynchronizeEvent();
      } else {
        dev.SynchronizeStream();
      }
    }
    forall j | 0 <= j < |products|
      ensures products[j].Delivers(firstDim, slots[j], dev.mem, old(dev.mem), resp.live)
    {
      StillKept(products[j].TheCut(firstDim), slots[j], live1, resp.live, o.obls, o.obls);
      SlicesArrive(products[j], firstDim, slots[j], resp.live, o.obls, dev.mem, old(dev.mem));
    }
  }

  /** What the responder holds about late copies agrees with what has been issued. */
  lemma {:induction false} LateOnes(o: OutputResponder, ds: seq<DeferredOutputs>, tries: seq<Try>, live: seq<bool>,
                                    ops: seq<Issue>)
    requires o.Idle() && o.finished == LateAmong(tries, live)
    requires Tried(tries, Flat(ds), o.dev.gpuEnabled, o.copyOnStream, ops, o.dev.issued)
    ensures forall i: nat ::
              WasLate(o.dev.issued, o.start, o.left, o.resp.live, o.resp.failedAt, i)
              <==> IsIssued(o.again, i) || IsLate(tries, live, i)
    ensures o.dev.issued == ops + IssuesOf(tries, o.dev.gpuEnabled, o.copyOnStream)
    ensures Sure(o.again + tries) && (ds == [] ==> tries == [])
  {
    hide WasLate, IsIssued, IsLate, IssuesOf, HowIssued, View.Ok, View.Pending;
    TriedSure(tries, Flat(ds), o.dev.gpuEnabled, o.copyOnStream, ops, o.dev.issued);
  }

  lemma {:induction false} AgainIssued(o: OutputResponder)
    requires o.Idle()
    ensures o.start <= |o.dev.issued| && forall t | t in o.again && t.issued ::
              HowIssued(t.copy, o.dev.gpuEnabled, o.copyOnStream) in o.dev.issued[o.start..]
  {
    hide WasLate, IsIssued, HowIssued, View.Ok, View.Pending;
  }

  /** Whose responses have been answered; the buffers are new. */
  lemma {:induction false} AllAnswered(cut: Cut, slots: seq<Slot>, live: seq<bool>, obls: seq<Obligation>,
                                       dests0: iset<Loc>, dests: iset<Loc>, lo: nat, hi: nat)
    requires Answering(cut, slots, live, obls, dests0, dests, lo, hi) && |slots| == |live|
    ensures Kept(cut, slots, live, obls) && HandedOut(slots, lo, hi)
    ensures forall l | l in dests :: l in dests0 || (l.space.Owned? && l.space.ownedSerial >= lo)
  {}

  /** The responses that the responder loses for want of rows. */
  lemma {:induction false} SameShort(o: OutputResponder, p: Product)
    requires p.Ok(o.firstDimBatching, o.count)
    ensures p.Batch? ==> p.TooShort(o.firstDimBatching) == iset{}
    ensures !p.Batch? ==> p.TooShort(o.firstDimBatching) == o.Short(p.requests, p.batchn, o.count)
  {
    hide RowsOf;
    if !p.Batch? {
      forall i: nat
        ensures p.Lacks(o.firstDimBatching, i) <==> o.IsShort(p.requests, p.batchn, o.count, i)
      {}
    }
  }

  /** Scatters one tensor after the other. */
  method ScatterEach(o: OutputResponder, products: seq<Product>) returns (ghost slots: seq<seq<Slot>>)
    requires o.Idle() && o.r.dests == iset{} && |o.resp.live| == o.count && o.again == [] && o.deferred == []
    requires forall k | 0 <= k < |products| ::
               products[k].Ok(o.firstDimBatching, o.count)
               && Within(products[k].t, products[k].Size(o.firstDimBatching), o.r.inputs)
    modifies o, o.dev, o.resp
    ensures o.Idle() && o.r.inputs == old(o.r.inputs) && o.dev.nextSerial >= old(o.dev.nextSerial)
    ensures |o.resp.live| == o.count && |slots| == |products| && AllocatedSince(o.r.dests, old(o.dev.nextSerial))
    ensures o.LostKnown([]) && o.finished == old(o.finished)
    ensures !o.pinnedEnabled ==> o.again == [] && o.deferred == []
    ensures Losses(old(o.resp.live), o.resp.live, old(o.dev.refusals), o.dev.refusals,
                   NoRows(products, o.firstDimBatching, |products|))
    ensures OwnRegions(slots)
    ensures forall j | 0 <= j < |products| :: HandedOut(slots[j], old(o.dev.nextSerial), o.dev.nextSerial)
    ensures forall j | 0 <= j < |products| ::
              products[j].Ok(o.firstDimBatching, |products[j].requests|)
              && Kept(products[j].TheCut(o.firstDimBatching), slots[j], o.resp.live, o.obls)
  {
    hide OutputResponder.Idle, Product.TheCut, Product.Size, Kept, Within, Losses, NoRows, Product.TooShort;
    hide Splittable, Scatterable, HandedOut, OwnRegions;
    NoLosses(o.resp.live, o.dev.refusals);
    NoRowsNone(products, o.firstDimBatching);
    NoRegions();
    var k := 0;
    slots := [];
    while k < |products|
      invariant k == |slots| <= |products| && o.Idle() && |o.resp.live| == o.count
      invariant o.r.inputs == old(o.r.inputs) && o.dev.nextSerial >= old(o.dev.nextSerial)
      invariant Losses(old(o.resp.live), o.resp.live, old(o.dev.refusals), o.dev.refusals,
                       NoRows(products, o.firstDimBatching, k))
      invariant AllocatedSince(o.r.dests, old(o.dev.nextSerial)) && o.LostKnown([]) && o.finished == old(o.finished)
      invariant !o.pinnedEnabled ==> o.again == [] && o.deferred == []
      invariant forall j | 0 <= j < k ::
                  Kept(products[j].TheCut(o.firstDimBatching), slots[j], o.resp.live, o.obls)
      invariant OwnRegions(slots)
      invariant forall j | 0 <= j < k :: HandedOut(slots[j], old(o.dev.nextSerial), o.dev.nextSerial)
    {
      ghost var live0, obls0, f, mid := o.resp.live, o.obls, o.dev.refusals, o.dev.nextSerial;
      ghost var given := ScatterOne(o, products[k]);
      NoRowsStep(products, o.firstDimBatching, k);
      LossesJoin(old(o.resp.live), live0, o.resp.live, old(o.dev.refusals), f, o.dev.refusals,
                 NoRows(products, o.firstDimBatching, k), products[k].TooShort(o.firstDimBatching));
      OnlyLosses(live0, o.resp.live, f, o.dev.refusals, products[k].TooShort(o.firstDimBatching));
      forall j | 0 <= j < k
        ensures Kept(products[j].TheCut(o.firstDimBatching), slots[j], o.resp.live, o.obls)
      {
        StillKept(products[j].TheCut(o.firstDimBatching), slots[j], live0, o.resp.live, obls0, o.obls);
      }
      RegionsGrow(slots, given, old(o.dev.nextSerial), mid, o.dev.nextSerial);
      slots := slots + [given];
      k := k + 1;
    }
  }

  /** Scatters one tensor. */
  method ScatterOne(o: OutputResponder, p: Product) returns (ghost slots: seq<Slot>)
    requires o.Idle() && p.Ok(o.firstDimBatching, o.count) && Within(p.t, p.Size(o.firstDimBatching), o.r.inputs)
    modifies o, o.dev, o.resp
    ensures o.Idle() && o.r.inputs == old(o.r.inputs) && o.dev.nextSerial >= old(o.dev.nextSerial)
    ensures (forall ob | ob in old(o.obls) :: ob in o.obls) && |o.resp.live| == o.count
    ensures o.LostKnown(old(o.again)) && o.finished == old(o.finished)
    ensures !o.pinnedEnabled ==> o.deferred == old(o.deferred) && o.again == old(o.again)
    ensures Kept(p.TheCut(o.firstDimBatching), slots, o.resp.live, o.obls)
    ensures HandedOut(slots, old(o.dev.nextSerial), o.dev.nextSerial)
    ensures Losses(old(o.resp.live), o.resp.live, old(o.dev.refusals), o.dev.refusals, p.TooShort(o.firstDimBatching))
    ensures forall l | l in o.r.dests :: l in old(o.r.dests)
                                         || (l.space.Owned? && l.space.ownedSerial >= old(o.dev.nextSerial))
  {
    hide OutputResponder.Idle, Within, SumTo, RowsOf, Losses, Kept, Answering, Product.TooShort, OutputResponder.Short;
    hide OutputResponder.LostKnown, HandedOut;
    SameShort(o, p);
    ghost var dests0, lo := o.r.dests, o.dev.nextSerial;
    match p {
      case Output(name, typeSize, batchn, t, requests) =>
        var shape;
        shape, slots := o.ProcessTensor(name, typeSize, batchn, t, requests);
      case State(typeSize, batchn, t, requests) =>
        var shape, states;
        shape, states, slots := o.ProcessStateTensor(typeSize, batchn, t, requests);
      case Batch(name, typeSize, out, t, requests) =>
        slots := o.ProcessBatchOutput(name, typeSize, out, t, requests);
    }
    AllAnswered(p.TheCut(o.firstDimBatching), slots, o.resp.live, o.obls, dests0, o.r.dests, lo, o.dev.nextSerial);
  }
}

/** The gather in progress, as a value: what is queued, deferred and pending, and
    what each kind of step does to it. */
module GatherViews {
  import opened DeviceMemory
  import opened Responses
  import opened Delivery
  import opened InputIteration
  import opened InputBytes

  /** A destination buffer. */
  datatype Tensor = Tensor(ptr: Loc, size: nat)

  /** A filled staging buffer whose copy to the tensor waits for Finalize. */
  datatype DeferredPinned = DeferredPinned(copy: Copy, requests: seq<Chunk>)

  function Plans(ds: seq<DeferredPinned>): (cs: seq<Copy>)
    ensures |cs| == |ds| && forall i | 0 <= i < |ds| :: cs[i] == ds[i].copy
  {
    seq(|ds|, i requires 0 <= i < |ds| => ds[i].copy)
  }

  function ToCopy(input: Chunk, t: Tensor, offset: nat): Copy {
    Copy(input.ptr, t.ptr.Plus(offset), input.size)
  }

  /** The obligations of one call: chunk after chunk, without gaps. */
  function CallObligations(t: Tensor, cs: seq<Chunk>): seq<Obligation> {
    if cs == [] then []
    else
      var c := cs[|cs| - 1];
      CallObligations(t, cs[..|cs| - 1]) + [Obligation(ToCopy(c, t, Sizes(cs[..|cs| - 1])), c.first, c.last)]
  }

  /** Chunk j, behind the ones before it, lies within the tensor. */
  predicate FitsAt(cs: seq<Chunk>, t: Tensor, j: nat)
    requires j < |cs|
  {
    Sizes(cs[..j]) + cs[j].size <= t.size
  }

  ghost predicate Squeezed(cs: seq<Chunk>, t: Tensor, i: nat) {
    exists j | 0 <= j < |cs| :: !FitsAt(cs, t, j) && cs[j].first <= i <= cs[j].last
  }

  /** The responses of the chunks there is no room for. */
  ghost function Unfit(cs: seq<Chunk>, t: Tensor): iset<nat> {
    iset i: nat | Squeezed(cs, t, i)
  }

  lemma {:induction false} FitsAtStep(cs: seq<Chunk>, c: Chunk, t: Tensor, j: nat)
    requires j <= |cs|
    ensures FitsAt(cs + [c], t, j) == if j < |cs| then FitsAt(cs, t, j) else Sizes(cs) + c.size <= t.size
  {
    assert (cs + [c])[..j] == cs[..j];
    assert cs[..|cs|] == cs;
  }

  lemma {:induction false} UnfitStep(cs: seq<Chunk>, c: Chunk, t: Tensor)
    ensures Unfit(cs + [c], t)
         == Unfit(cs, t) + if Sizes(cs) + c.size <= t.size then iset{} else Range(c.first, c.last)
  {
    forall j: nat | j <= |cs|
      ensures FitsAt(cs + [c], t, j) == if j < |cs| then FitsAt(cs, t, j) else Sizes(cs) + c.size <= t.size
    {
      FitsAtStep(cs, c, t, j);
    }
    hide FitsAt, Sizes;
    forall i: nat
      ensures Squeezed(cs + [c], t, i)
              <==> Squeezed(cs, t, i) || (!(Sizes(cs) + c.size <= t.size) && c.first <= i <= c.last)
    {
      if Squeezed(cs, t, i) {
        var j :| 0 <= j < |cs| && !FitsAt(cs, t, j) && cs[j].first <= i <= cs[j].last;
        assert (cs + [c])[j] == cs[j];
      }
      assert (cs + [c])[|cs|] == c;
    }
  }

  /** With room for everything there is room for each chunk. */
  lemma {:induction false} RoomForAll(cs: seq<Chunk>, t: Tensor)
    requires Sizes(cs) <= t.size
    ensures Unfit(cs, t) == iset{} && forall j | 0 <= j < |cs| :: FitsAt(cs, t, j)
  {
    forall j | 0 <= j < |cs|
      ensures FitsAt(cs, t, j)
    {
      SizesStep(cs, j);
    }
  }

  ghost predicate HasPart(cs: seq<Chunk>, i: nat) {
    exists c | c in cs :: c.first <= i <= c.last
  }

  /** The responses that have a part in some of the chunks. */
  ghost function ResponsesOf(cs: seq<Chunk>): iset<nat> {
    iset i: nat | HasPart(cs, i)
  }

  /** The chunk's responses exist. */
  predicate Named(c: Chunk, count: nat) {
    c.first <= c.last < count
  }

  /** bufs are pending for the size bytes of the tensor that start at base, one
      after the other, and those bytes have not been given to any copy. */
  ghost predicate Window(bufs: seq<Chunk>, obs: seq<Obligation>, base: nat, t: Tensor, r: Regions, count: nat) {
    && |obs| == |bufs| && base + Sizes(bufs) <= t.size
    && Within(t.ptr.Plus(base), Sizes(bufs), r.unwritten)
    && forall i | 0 <= i < |bufs| ::
         && Named(bufs[i], count) && obs[i].first == bufs[i].first && obs[i].last == bufs[i].last
         && Within(bufs[i].ptr, bufs[i].size, r.inputs)
         && obs[i].copy.n == bufs[i].size
         && (bufs[i].size > 0 ==> obs[i].copy == ToCopy(bufs[i], t, base + Sizes(bufs[..i])))
  }

  /** The i-th pending buffer goes to bytes that the ones before it do not take. */
  lemma {:induction false} WindowAt(bufs: seq<Chunk>, obs: seq<Obligation>, base: nat, t: Tensor, r: Regions,
                                    count: nat, i: nat)
    requires Window(bufs, obs, base, t, r, count) && i < |bufs|
    ensures var at := base + Sizes(bufs[..i]);
            var left := r.Take(t.ptr.Plus(base), Sizes(bufs[..i]));
            && Sizes(bufs[..i + 1]) == Sizes(bufs[..i]) + bufs[i].size
            && at + bufs[i].size <= t.size
            && Within(t.ptr.Plus(at), bufs[i].size, left.unwritten)
            && left.Take(t.ptr.Plus(at), bufs[i].size) == r.Take(t.ptr.Plus(base), Sizes(bufs[..i + 1]))
  {
    SizesStep(bufs, i);
    TakeTwice(r, t.ptr.Plus(base), Sizes(bufs[..i]), bufs[i].size);
  }

  lemma {:induction false} WindowItem(bufs: seq<Chunk>, obs: seq<Obligation>, base: nat, t: Tensor, r: Regions,
                                      count: nat, i: nat)
    requires Window(bufs, obs, base, t, r, count) && i < |bufs|
    ensures Named(bufs[i], count) && |obs| == |bufs| && obs[i].first == bufs[i].first && obs[i].last == bufs[i].last
    ensures Within(bufs[i].ptr, bufs[i].size, r.inputs) && obs[i].copy.n == bufs[i].size
    ensures bufs[i].size > 0 ==> obs[i].copy == ToCopy(bufs[i], t, base + Sizes(bufs[..i]))
  {}

  lemma {:induction false} DropHead(obs: seq<Obligation>, others: seq<Obligation>, i: nat)
    requires i < |obs|
    ensures forall o | o in obs[i..] + others :: o == obs[i] || o in obs[i + 1..] + others
  {
    assert obs[i..] == [obs[i]] + obs[i + 1..];
  }

  lemma {:induction false} WindowBuffers(bufs: seq<Chunk>, obs: seq<Obligation>, base: nat, t: Tensor, r: Regions,
                                         count: nat)
    requires Window(bufs, obs, base, t, r, count)
    ensures forall b | b in bufs :: Named(b, count) && Within(b.ptr, b.size, r.inputs)
    ensures Within(t.ptr.Plus(base), Sizes(bufs), r.unwritten)
  {}

  ghost predicate CoveredBy(ob: Obligation, requests: seq<Chunk>) {
    exists c | c in requests :: c.first == ob.first && c.last == ob.last
  }

  /** A deferred copy reads staging memory, writes destination bytes given to it,
      and names the responses of everything it still has to deliver. */
  ghost predicate DeferredOne(d: DeferredPinned, obls: seq<Obligation>, live: seq<bool>, r: Regions) {
    && (forall l: Loc | In(l, d.copy.src, d.copy.n) :: l.space.Staging?)
    && r.Given(d.copy.dst, d.copy.n)
    && (forall c | c in d.requests :: Named(c, |live|))
    && (forall ob | ob in obls ::
          || AllNull(live, ob.first, ob.last)
          || Apart(ob.copy.dst, ob.copy.n, d.copy.dst, d.copy.n)
          || CoveredBy(ob, d.requests))
  }

  /** Deferred copies are in order, and no two of them write the same bytes. */
  ghost predicate DeferredOk(ds: seq<DeferredPinned>, obls: seq<Obligation>, live: seq<bool>, r: Regions) {
    && (forall i, j | 0 <= i < j < |ds| :: Apart(ds[i].copy.dst, ds[i].copy.n, ds[j].copy.dst, ds[j].copy.n))
    && (forall d | d in ds :: DeferredOne(d, obls, live, r))
  }

  /** Everything the correctness of a gather depends on, as a value. */
  datatype View = View(mem: Memory, stream: seq<Copy>, deferred: seq<DeferredPinned>, live: seq<bool>, r: Regions) {
    ghost function Queue(): seq<Copy> { stream + Plans(deferred) }

    /** Memory once everything queued or deferred has run. */
    ghost function Eventual(): Memory { Drain(mem, Queue()) }

    ghost predicate Ok(orig: Memory, obls: seq<Obligation>, owned: set<nat>) {
      && r.Valid() && OpsOk(Queue(), r, owned)
      && Untouched(Eventual(), orig, r)
      && (forall ob | ob in obls :: ob.first <= ob.last < |live|)
      && DeferredOk(deferred, obls, live, r)
    }

    ghost predicate Pending(orig: Memory, obls: seq<Obligation>, obs: seq<Obligation>) {
      Progress(obls, Eventual(), orig, live, r, obs)
    }
  }

  lemma {:induction false} QueueIndependent(v: View, orig: Memory, obls: seq<Obligation>, owned: set<nat>, c: Copy)
    requires v.Ok(orig, obls, owned)
    requires Within(c.src, c.n, v.r.inputs) && Within(c.dst, c.n, v.r.unwritten)
    ensures IndependentOfAll(c, v.stream) && IndependentOfAll(c, Plans(v.deferred))
  {
    FreshCopyIndependent(c, v.Queue(), v.r, owned);
    assert forall op | op in v.stream :: op in v.Queue();
    assert forall op | op in Plans(v.deferred) :: op in v.Queue();
  }

  /** A direct copy into fresh destination bytes keeps the view in order and
      meets its obligation. */
  lemma {:induction false} DirectCopy(v0: View, v1: View, orig: Memory, obls: seq<Obligation>, owned: set<nat>,
                   ob: Obligation, c: Copy, ok: bool, pending0: seq<Obligation>, pending1: seq<Obligation>)
    requires v0.Ok(orig, obls, owned) && v0.Pending(orig, obls, pending0)
    requires Within(c.src, c.n, v0.r.inputs) && Within(c.dst, c.n, v0.r.unwritten)
    requires ob.copy.n == c.n && (c.n > 0 ==> ob.copy == c)
    requires || (!ok && v1.mem == v0.mem && v1.stream == v0.stream && AllNull(v1.live, ob.first, ob.last))
             || (ok && v1.mem == Apply(v0.mem, c) && v1.stream == v0.stream)
             || (ok && v1.mem == v0.mem && v1.stream == v0.stream + [c])
    requires OnlyNulled(v0.live, v1.live) && v1.deferred == v0.deferred && v1.r == v0.r.Take(c.dst, c.n)
    requires forall o | o in pending0 :: o == ob || o in pending1
    ensures v1.Ok(orig, obls, owned) && v1.Pending(orig, obls, pending1)
  {
    QueueIndependent(v0, orig, obls, owned, c);
    CopyEffect(v0.mem, v0.stream, v1.mem, v1.stream, Plans(v0.deferred), c, ok);
    CopyStep(obls, v0.Eventual(), v1.Eventual(), orig, v0.live, v1.live, v0.r, ob, c, ok, pending0, pending1);
    OpsStillOk(v0.Queue(), v0.r, v1.r, owned, owned);
    DeferredStillOk(v0.deferred, obls, v0.live, v1.live, v0.r, v1.r);
    assert OpOk(c, v1.r, owned);
  }

  lemma {:induction false} DeferredStillOk(ds: seq<DeferredPinned>, obls: seq<Obligation>, live0: seq<bool>,
                                           live1: seq<bool>,
                        r0: Regions, r1: Regions)
    requires DeferredOk(ds, obls, live0, r0) && OnlyNulled(live0, live1) && r0.Keeps(r1)
    ensures DeferredOk(ds, obls, live1, r1)
  {
    forall d | d in ds
      ensures DeferredOne(d, obls, live1, r1)
    {
      assert DeferredOne(d, obls, live0, r0);
    }
  }

  // ---------------------------------------------------------------------------
  // Staging through pinned memory
  // ---------------------------------------------------------------------------

  function StagingAt(s: nat, k: int): Loc { Loc(Staging(s), k) }

  /** No queued copy reads staging region s, or writes it from `filled` on. */
  ghost predicate StagingUse(ops: seq<Copy>, s: nat, filled: nat) {
    forall op | op in ops ::
      && (forall l: Loc | In(l, op.dst, op.n) && l.space == Staging(s) :: l.addr < filled)
      && (forall l: Loc | In(l, op.src, op.n) :: l.space != Staging(s))
  }

  /** The first i buffers are, or will be, in staging region s, each behind the
      ones before it, unless their responses have failed. */
  ghost predicate Staged(m: Memory, orig: Memory, live: seq<bool>, s: nat, bufs: seq<Chunk>, i: nat)
    requires i <= |bufs|
  {
    forall j | 0 <= j < i :: StagedOne(m, orig, live, StagingAt(s, Sizes(bufs[..j])), bufs[j])
  }

  ghost predicate StagedOne(m: Memory, orig: Memory, live: seq<bool>, at: Loc, buf: Chunk) {
    || AllNull(live, buf.first, buf.last)
    || forall l: Loc | In(l, at, buf.size) :: m(l) == orig(Shift(l, at, buf.ptr))
  }

  lemma {:induction false} FreshStaging(ops: seq<Copy>, r: Regions, owned: set<nat>, s: nat)
    requires r.Valid() && OpsOk(ops, r, owned) && s !in owned
    ensures StagingUse(ops, s, 0)
  {
    forall op | op in ops
      ensures forall l: Loc | In(l, op.dst, op.n) :: l.space != Staging(s)
      ensures forall l: Loc | In(l, op.src, op.n) :: l.space != Staging(s)
    {
      assert OpOk(op, r, owned);
    }
  }

  /** A region that was just allocated is empty, and may be owned from now on. */
  lemma {:induction false} OwnStaging(v: View, orig: Memory, obls: seq<Obligation>, owned: set<nat>, s: nat)
    requires v.Ok(orig, obls, owned) && s !in owned
    ensures v.Ok(orig, obls, owned + {s}) && StagingUse(v.Queue(), s, 0)
    ensures forall op | op in v.stream :: forall l: Loc | In(l, op.dst, op.n) :: l.space != Staging(s)
  {
    OpsStillOk(v.Queue(), v.r, v.r, owned, owned + {s});
    FreshStaging(v.Queue(), v.r, owned, s);
    forall op | op in v.stream
      ensures forall l: Loc | In(l, op.dst, op.n) :: l.space != Staging(s)
    {
      assert op in v.Queue();
      assert OpOk(op, v.r, owned);
    }
  }

  /** No queued copy touches the bytes that c is to write. */
  ghost predicate FreePart(ops: seq<Copy>, c: Copy) {
    forall op | op in ops :: Apart(c.dst, c.n, op.dst, op.n) && Apart(c.dst, c.n, op.src, op.n)
  }

  /** A copy from the inputs to bytes that nobody else touches conflicts with nothing. */
  lemma {:induction false} PartIndependent(v: View, orig: Memory, obls: seq<Obligation>, owned: set<nat>, c: Copy)
    requires v.Ok(orig, obls, owned) && FreePart(v.Queue(), c) && Within(c.src, c.n, v.r.inputs)
    ensures IndependentOfAll(c, v.stream) && IndependentOfAll(c, Plans(v.deferred))
  {
    forall op | op in v.Queue()
      ensures Independent(c, op)
    {
      assert OpOk(op, v.r, owned);
    }
    assert forall op | op in v.stream :: op in v.Queue();
    assert forall op | op in Plans(v.deferred) :: op in v.Queue();
  }

  /** The next free part of the staging region conflicts with nothing. */
  lemma {:induction false} StageIndependent(v: View, orig: Memory, obls: seq<Obligation>, owned: set<nat>, s: nat,
                                            filled: nat, buf: Chunk)
    requires v.Ok(orig, obls, owned) && StagingUse(v.Queue(), s, filled) && Within(buf.ptr, buf.size, v.r.inputs)
    ensures var c := Copy(buf.ptr, StagingAt(s, filled), buf.size);
            && FreePart(v.Queue(), c)
            && IndependentOfAll(c, v.stream) && IndependentOfAll(c, Plans(v.deferred))
  {
    PartIndependent(v, orig, obls, owned, Copy(buf.ptr, StagingAt(s, filled), buf.size));
  }

  /** The copy of chunk j into staging region s, behind the chunks before it. */
  function StageCopy(bufs: seq<Chunk>, s: nat, j: nat): Copy
    requires j < |bufs|
  {
    Copy(bufs[j].ptr, StagingAt(s, Sizes(bufs[..j])), bufs[j].size)
  }

  /** One buffer is copied into the staging region, or its responses fail. */
  ghost predicate BufferStaged(v0: View, v1: View, c: Copy, buf: Chunk, ok: bool) {
    && OnlyNulled(v0.live, v1.live) && v1.deferred == v0.deferred && v1.r == v0.r
    && (|| (!ok && v1.mem == v0.mem && v1.stream == v0.stream && AllNull(v1.live, buf.first, buf.last))
        || (ok && v1.mem == Apply(v0.mem, c) && v1.stream == v0.stream)
        || (ok && v1.mem == v0.mem && v1.stream == v0.stream + [c]))
  }

  /** What a copy into a free part of some staging region does to the outcome. */
  lemma {:induction false} PartEffect(v0: View, v1: View, orig: Memory, obls: seq<Obligation>, owned: set<nat>,
                                      buf: Chunk, c: Copy, ok: bool)
    requires v0.Ok(orig, obls, owned) && FreePart(v0.Queue(), c)
    requires c.src == buf.ptr && c.n == buf.size && Within(c.src, c.n, v0.r.inputs) && BufferStaged(v0, v1, c, buf, ok)
    ensures forall l: Loc :: v1.Eventual()(l) == (if ok then Apply(v0.Eventual(), c)(l) else v0.Eventual()(l))
    ensures forall l: Loc | In(l, c.src, c.n) :: v0.Eventual()(l) == orig(l)
  {
    PartIndependent(v0, orig, obls, owned, c);
    CopyEffect(v0.mem, v0.stream, v1.mem, v1.stream, Plans(v0.deferred), c, ok);
  }

  lemma {:induction false} PartKeeps(v0: View, v1: View, orig: Memory, obls: seq<Obligation>, owned: set<nat>,
                                     pending: seq<Obligation>, s: nat, buf: Chunk, c: Copy, ok: bool)
    requires v0.Ok(orig, obls, owned) && v0.Pending(orig, obls, pending) && s in owned && FreePart(v0.Queue(), c)
    requires c.src == buf.ptr && c.n == buf.size && c.dst.space == Staging(s)
    requires Within(c.src, c.n, v0.r.inputs) && BufferStaged(v0, v1, c, buf, ok)
    ensures v1.Ok(orig, obls, owned) && v1.Pending(orig, obls, pending)
  {
    PartEffect(v0, v1, orig, obls, owned, buf, c, ok);
    StillProgress(obls, v0.Eventual(), v1.Eventual(), orig, v0.live, v1.live, v0.r, v1.r, c, pending);
    DeferredStillOk(v0.deferred, obls, v0.live, v1.live, v0.r, v1.r);
    assert OpOk(c, v1.r, owned);
  }

  lemma {:induction false} StageEffect(v0: View, v1: View, orig: Memory, obls: seq<Obligation>, owned: set<nat>,
                    s: nat, filled: nat, buf: Chunk, c: Copy, ok: bool)
    requires v0.Ok(orig, obls, owned) && c == Copy(buf.ptr, StagingAt(s, filled), buf.size)
    requires Within(buf.ptr, buf.size, v0.r.inputs) && StagingUse(v0.Queue(), s, filled)
    requires BufferStaged(v0, v1, c, buf, ok)
    ensures forall l: Loc :: v1.Eventual()(l) == (if ok then Apply(v0.Eventual(), c)(l) else v0.Eventual()(l))
    ensures forall l: Loc | In(l, c.src, c.n) :: v0.Eventual()(l) == orig(l)
    ensures StagingUse(v1.Queue(), s, filled + buf.size)
  {
    StageIndependent(v0, orig, obls, owned, s, filled, buf);
    PartEffect(v0, v1, orig, obls, owned, buf, c, ok);
  }

  lemma {:induction false} StageKeeps(v0: View, v1: View, orig: Memory, obls: seq<Obligation>, owned: set<nat>,
                                      pending: seq<Obligation>,
                   s: nat, filled: nat, buf: Chunk, c: Copy, ok: bool)
    requires v0.Ok(orig, obls, owned) && v0.Pending(orig, obls, pending) && s in owned
    requires c == Copy(buf.ptr, StagingAt(s, filled), buf.size)
    requires Within(buf.ptr, buf.size, v0.r.inputs) && StagingUse(v0.Queue(), s, filled)
    requires BufferStaged(v0, v1, c, buf, ok)
    ensures v1.Ok(orig, obls, owned) && v1.Pending(orig, obls, pending)
  {
    hide View.Ok, View.Pending, View.Queue, StagingUse, FreePart;
    StageIndependent(v0, orig, obls, owned, s, filled, buf);
    PartKeeps(v0, v1, orig, obls, owned, pending, s, buf, c, ok);
  }

  lemma {:induction false} StageFills(v0: View, v1: View, orig: Memory, obls: seq<Obligation>, owned: set<nat>,
                   s: nat, bufs: seq<Chunk>, i: nat, c: Copy, ok: bool)
    requires v0.Ok(orig, obls, owned) && i < |bufs|
    requires c == Copy(bufs[i].ptr, StagingAt(s, Sizes(bufs[..i])), bufs[i].size)
    requires Within(bufs[i].ptr, bufs[i].size, v0.r.inputs) && StagingUse(v0.Queue(), s, Sizes(bufs[..i]))
    requires Staged(v0.Eventual(), orig, v0.live, s, bufs, i) && BufferStaged(v0, v1, c, bufs[i], ok)
    ensures Staged(v1.Eventual(), orig, v1.live, s, bufs, i + 1)
  {
    var m0, m1 := v0.Eventual(), v1.Eventual();
    StageEffect(v0, v1, orig, obls, owned, s, Sizes(bufs[..i]), bufs[i], c, ok);
    forall j | 0 <= j < i
      ensures StagedOne(m1, orig, v1.live, StagingAt(s, Sizes(bufs[..j])), bufs[j])
    {
      SizesOrder(bufs, j, i);
      StagedStays(m0, m1, orig, v0.live, v1.live, StagingAt(s, Sizes(bufs[..j])), bufs[j], c);
    }
    var at := c.dst;
    if ok {
      forall l: Loc | In(l, at, bufs[i].size)
        ensures m1(l) == orig(Shift(l, at, bufs[i].ptr))
      {
        assert In(Shift(l, c.dst, c.src), c.src, c.n);
      }
    }
    assert StagedOne(m1, orig, v1.live, at, bufs[i]);
  }

  lemma {:induction false} StagedStays(m0: Memory, m1: Memory, orig: Memory, live0: seq<bool>, live1: seq<bool>,
                                       at: Loc, buf: Chunk, c: Copy)
    requires StagedOne(m0, orig, live0, at, buf) && OnlyNulled(live0, live1)
    requires forall l: Loc | !In(l, c.dst, c.n) :: m1(l) == m0(l)
    requires Apart(at, buf.size, c.dst, c.n)
    ensures StagedOne(m1, orig, live1, at, buf)
  {
    if !AllNull(live0, buf.first, buf.last) {
      assert forall l: Loc | In(l, at, buf.size) :: m1(l) == m0(l);
    }
  }

  lemma {:induction false} SizesOrder(cs: seq<Chunk>, j: nat, i: nat)
    requires j < i <= |cs|
    ensures Sizes(cs[..j]) + cs[j].size <= Sizes(cs[..i])
  {
    SizesStep(cs[..i], j);
    assert cs[..i][..j] == cs[..j];
  }

  /** The filled staging region goes to the tensor in one copy: at once, on the
      stream, or later; or all its responses fail. */
  datatype Outcome = AtOnce | OnStream | Later | Refused

  ghost predicate WindowCopied(v0: View, v1: View, c: Copy, bufs: seq<Chunk>, how: Outcome) {
    && OnlyNulled(v0.live, v1.live) && v1.r == v0.r.Take(c.dst, c.n)
    && (how.AtOnce? ==> v1.mem == Apply(v0.mem, c) && v1.stream == v0.stream && v1.deferred == v0.deferred)
    && (how.OnStream? ==> v1.mem == v0.mem && v1.stream == v0.stream + [c] && v1.deferred == v0.deferred)
    && (how.Later? ==> v1.mem == v0.mem && v1.stream == v0.stream && v1.deferred == v0.deferred + [DeferredPinned(c, bufs)])
    && (how.Refused? ==> v1.mem == v0.mem && v1.stream == v0.stream && v1.deferred == v0.deferred
                         && forall b | b in bufs :: AllNull(v1.live, b.first, b.last))
  }

  lemma {:induction false} WindowArrives(v0: View, m1: Memory, orig: Memory, s: nat, bufs: seq<Chunk>,
                                         obs: seq<Obligation>,
                      base: nat, t: Tensor, count: nat, i: nat)
    requires Window(bufs, obs, base, t, v0.r, count) && i < |bufs|
    requires Staged(v0.Eventual(), orig, v0.live, s, bufs, |bufs|)
    requires forall l: Loc :: m1(l) == Apply(v0.Eventual(), Copy(StagingAt(s, 0), t.ptr.Plus(base), Sizes(bufs)))(l)
    ensures AllNull(v0.live, obs[i].first, obs[i].last) || Arrived(obs[i], m1, orig)
  {
    var at := StagingAt(s, Sizes(bufs[..i]));
    SizesStep(bufs, i);
    assert StagedOne(v0.Eventual(), orig, v0.live, at, bufs[i]);
    if !AllNull(v0.live, obs[i].first, obs[i].last) && bufs[i].size > 0 {
      forall l: Loc | In(l, obs[i].copy.dst, obs[i].copy.n)
        ensures m1(l) == orig(Shift(l, obs[i].copy.dst, obs[i].copy.src))
      {
        var l' := Shift(l, t.ptr.Plus(base), StagingAt(s, 0));
        assert In(l', at, bufs[i].size);
        assert Shift(l', at, bufs[i].ptr) == Shift(l, obs[i].copy.dst, obs[i].copy.src);
      }
    }
  }

  lemma {:induction false} WindowIndependent(v: View, orig: Memory, obls: seq<Obligation>, owned: set<nat>, c: Copy,
                                             s: nat)
    requires v.Ok(orig, obls, owned) && Within(c.dst, c.n, v.r.unwritten)
    requires forall l: Loc | In(l, c.src, c.n) :: l.space == Staging(s)
    ensures IndependentOfAll(c, Plans(v.deferred))
    ensures (forall op | op in v.stream :: forall l: Loc | In(l, op.dst, op.n) :: l.space != Staging(s))
            ==> IndependentOfAll(c, v.stream)
  {
    forall op | op in v.Queue()
      ensures Apart(c.dst, c.n, op.dst, op.n) && Apart(c.dst, c.n, op.src, op.n)
    {
      assert OpOk(op, v.r, owned);
    }
    assert forall op | op in v.stream :: op in v.Queue();
    forall op | op in Plans(v.deferred)
      ensures Independent(c, op)
    {
      assert op in v.Queue();
      var i :| 0 <= i < |v.deferred| && op == v.deferred[i].copy;
      assert DeferredOne(v.deferred[i], obls, v.live, v.r);
    }
  }

  lemma {:induction false} WindowEffect(v0: View, v1: View, orig: Memory, obls: seq<Obligation>, owned: set<nat>,
                                        c: Copy, s: nat,
                     bufs: seq<Chunk>, how: Outcome)
    requires v0.Ok(orig, obls, owned) && Within(c.dst, c.n, v0.r.unwritten)
    requires forall l: Loc | In(l, c.src, c.n) :: l.space == Staging(s)
    requires WindowCopied(v0, v1, c, bufs, how)
    requires how.AtOnce? ==> forall op | op in v0.stream :: forall l: Loc | In(l, op.dst, op.n) :: l.space != Staging(s)
    ensures forall l: Loc :: v1.Eventual()(l) == (if how.Refused? then v0.Eventual()(l) else Apply(v0.Eventual(), c)(l))
    ensures forall op | op in v1.Queue() :: op in v0.Queue() || (op == c && !how.Refused?)
  {
    WindowIndependent(v0, orig, obls, owned, c, s);
    if how.Later? {
      assert Plans(v1.deferred) == Plans(v0.deferred) + [c];
      assert v1.Queue() == v0.Queue() + [c];
      DrainAppend(v0.mem, v0.Queue(), c);
    } else {
      CopyEffect(v0.mem, v0.stream, v1.mem, v1.stream, Plans(v0.deferred), c, !how.Refused?);
    }
  }

  /** The obligations of the window are met or have failed; nothing else changes. */
  lemma {:induction false} WindowKeepsPending(v0: View, v1: View, orig: Memory, obls: seq<Obligation>,
                                              owned: set<nat>, s: nat,
                           bufs: seq<Chunk>, obs: seq<Obligation>, others: seq<Obligation>,
                           base: nat, t: Tensor, count: nat, how: Outcome)
    requires v0.Ok(orig, obls, owned) && v0.Pending(orig, obls, obs + others)
    requires Window(bufs, obs, base, t, v0.r, count) && Staged(v0.Eventual(), orig, v0.live, s, bufs, |bufs|)
    requires WindowCopied(v0, v1, Copy(StagingAt(s, 0), t.ptr.Plus(base), Sizes(bufs)), bufs, how)
    requires how.AtOnce? ==> forall op | op in v0.stream :: forall l: Loc | In(l, op.dst, op.n) :: l.space != Staging(s)
    ensures v1.Pending(orig, obls, others) && Untouched(v1.Eventual(), orig, v1.r)
  {
    hide Done, Window, Staged, WindowCopied, View.Eventual, Sizes;
    var c := Copy(StagingAt(s, 0), t.ptr.Plus(base), Sizes(bufs));
    var m0, m1 := v0.Eventual(), v1.Eventual();
    WindowBuffers(bufs, obs, base, t, v0.r, count);
    WindowEffect(v0, v1, orig, obls, owned, c, s, bufs, how);
    WindowSpent(v0, v1, orig, s, bufs, obs, base, t, count, how);
    StillProgress(obls, m0, m1, orig, v0.live, v1.live, v0.r, v1.r, c, obs + others);
    forall i | 0 <= i < |obs|
      ensures Done(obs[i], m1, orig, v1.live, v1.r)
    {
      WindowDone(v0, v1, orig, s, bufs, obs, base, t, count, how, i);
    }
    assert forall ob | ob in obs :: Done(ob, m1, orig, v1.live, v1.r);
  }

  lemma {:induction false} WindowSpent(v0: View, v1: View, orig: Memory, s: nat, bufs: seq<Chunk>,
                                       obs: seq<Obligation>, base: nat, t: Tensor, count: nat, how: Outcome)
    requires v0.r.Valid() && Window(bufs, obs, base, t, v0.r, count) && Untouched(v0.Eventual(), orig, v0.r)
    requires WindowCopied(v0, v1, Copy(StagingAt(s, 0), t.ptr.Plus(base), Sizes(bufs)), bufs, how)
    requires forall l: Loc | !In(l, t.ptr.Plus(base), Sizes(bufs)) :: v1.Eventual()(l) == v0.Eventual()(l)
    ensures OnlyNulled(v0.live, v1.live) && v0.r.Keeps(v1.r) && |obs| == |bufs|
    ensures Within(t.ptr.Plus(base), Sizes(bufs), v0.r.unwritten)
    ensures Untouched(v1.Eventual(), orig, v1.r)
  {
    hide View.Eventual, Sizes;
  }

  lemma {:induction false} WindowDone(v0: View, v1: View, orig: Memory, s: nat, bufs: seq<Chunk>, obs: seq<Obligation>,
                                      base: nat, t: Tensor, count: nat, how: Outcome, i: nat)
    requires v0.r.Valid() && Window(bufs, obs, base, t, v0.r, count) && i < |obs|
    requires Staged(v0.Eventual(), orig, v0.live, s, bufs, |bufs|)
    requires WindowCopied(v0, v1, Copy(StagingAt(s, 0), t.ptr.Plus(base), Sizes(bufs)), bufs, how)
    requires !how.Refused? ==> forall l: Loc ::
               v1.Eventual()(l) == Apply(v0.Eventual(), Copy(StagingAt(s, 0), t.ptr.Plus(base), Sizes(bufs)))(l)
    ensures Done(obs[i], v1.Eventual(), orig, v1.live, v1.r)
  {
    hide View.Eventual, Sizes, Staged, Apply;
    if how.Refused? {
      assert bufs[i] in bufs;
    } else {
      WindowArrives(v0, v1.Eventual(), orig, s, bufs, obs, base, t, count, i);
      WindowGiven(v0, v1, bufs, obs, base, t, count, i);
    }
  }

  lemma {:induction false} WindowGiven(v0: View, v1: View, bufs: seq<Chunk>, obs: seq<Obligation>,
                                       base: nat, t: Tensor, count: nat, i: nat)
    requires v0.r.Valid() && v1.r == v0.r.Take(t.ptr.Plus(base), Sizes(bufs))
    requires Window(bufs, obs, base, t, v0.r, count) && i < |bufs|
    ensures v1.r.Given(obs[i].copy.dst, obs[i].copy.n)
  {
    SizesStep(bufs, i);
  }

  /** A deferred window names the responses of every obligation it carries. */
  lemma {:induction false} WindowKeepsDeferred(v0: View, v1: View, orig: Memory, obls: seq<Obligation>,
                                               owned: set<nat>, s: nat,
                            bufs: seq<Chunk>, obs: seq<Obligation>, others: seq<Obligation>,
                            base: nat, t: Tensor, how: Outcome)
    requires v0.Ok(orig, obls, owned) && v0.Pending(orig, obls, obs + others)
    requires Window(bufs, obs, base, t, v0.r, |v0.live|)
    requires forall o | o in others :: Apart(o.copy.dst, o.copy.n, t.ptr.Plus(base), Sizes(bufs))
    requires WindowCopied(v0, v1, Copy(StagingAt(s, 0), t.ptr.Plus(base), Sizes(bufs)), bufs, how)
    ensures DeferredOk(v1.deferred, obls, v1.live, v1.r)
  {
    var c := Copy(StagingAt(s, 0), t.ptr.Plus(base), Sizes(bufs));
    DeferredStillOk(v0.deferred, obls, v0.live, v1.live, v0.r, v1.r);
    if how.Later? {
      var d := DeferredPinned(c, bufs);
      forall ob | ob in obls
        ensures AllNull(v1.live, ob.first, ob.last) || Apart(ob.copy.dst, ob.copy.n, c.dst, c.n) || CoveredBy(ob, bufs)
      {
        if ob in obs {
          var i :| 0 <= i < |obs| && obs[i] == ob;
          assert bufs[i] in bufs;
        } else if ob !in others {
          assert Done(ob, v0.Eventual(), orig, v0.live, v0.r);
        }
      }
      forall e | e in v0.deferred
        ensures Apart(e.copy.dst, e.copy.n, c.dst, c.n)
      {
        assert v0.r.Given(e.copy.dst, e.copy.n);
      }
    }
  }

  lemma {:induction false} WindowCopy(v0: View, v1: View, orig: Memory, obls: seq<Obligation>, owned: set<nat>, s: nat,
                   bufs: seq<Chunk>, obs: seq<Obligation>, others: seq<Obligation>,
                   base: nat, t: Tensor, how: Outcome)
    requires v0.Ok(orig, obls, owned) && v0.Pending(orig, obls, obs + others) && s in owned
    requires Window(bufs, obs, base, t, v0.r, |v0.live|) && Staged(v0.Eventual(), orig, v0.live, s, bufs, |bufs|)
    requires forall o | o in others :: Apart(o.copy.dst, o.copy.n, t.ptr.Plus(base), Sizes(bufs))
    requires WindowCopied(v0, v1, Copy(StagingAt(s, 0), t.ptr.Plus(base), Sizes(bufs)), bufs, how)
    requires how.AtOnce? ==> forall op | op in v0.stream :: forall l: Loc | In(l, op.dst, op.n) :: l.space != Staging(s)
    ensures v1.Ok(orig, obls, owned) && v1.Pending(orig, obls, others)
  {
    var c := Copy(StagingAt(s, 0), t.ptr.Plus(base), Sizes(bufs));
    WindowKeepsPending(v0, v1, orig, obls, owned, s, bufs, obs, others, base, t, |v0.live|, how);
    WindowKeepsDeferred(v0, v1, orig, obls, owned, s, bufs, obs, others, base, t, how);
    WindowEffect(v0, v1, orig, obls, owned, c, s, bufs, how);
    OpsStillOk(v0.Queue(), v0.r, v1.r, owned, owned);
    assert OpOk(c, v1.r, owned);
  }

  // ---------------------------------------------------------------------------
  // The gather kernel
  // ---------------------------------------------------------------------------

  /** What the gather kernel copies: the pending buffers, each to its own part of
      the window. */
  function KernelCopies(bufs: seq<Chunk>, t: Tensor, base: nat): seq<Copy> {
    seq(|bufs|, i requires 0 <= i < |bufs| => ToCopy(bufs[i], t, base + Sizes(bufs[..i])))
  }

  lemma {:induction false} KernelCopyAt(bufs: seq<Chunk>, obs: seq<Obligation>, base: nat, t: Tensor,
                                        r: Regions, count: nat, i: nat)
    requires Window(bufs, obs, base, t, r, count) && i < |bufs|
    ensures var c := KernelCopies(bufs, t, base)[i];
            Within(c.src, c.n, r.inputs) && Within(c.dst, c.n, r.unwritten)
  {
    SizesStep(bufs, i);
  }

  lemma {:induction false} KernelCopiesIndependent(bufs: seq<Chunk>, obs: seq<Obligation>, base: nat, t: Tensor,
                                                   r: Regions, count: nat, i: nat, j: nat)
    requires r.Valid() && Window(bufs, obs, base, t, r, count) && i < j < |bufs|
    ensures Independent(KernelCopies(bufs, t, base)[i], KernelCopies(bufs, t, base)[j])
  {
    hide Window, Sizes;
    SizesOrder(bufs, i, j);
    KernelCopyAt(bufs, obs, base, t, r, count, i);
    KernelCopyAt(bufs, obs, base, t, r, count, j);
  }

  /** The kernel's copies conflict with nothing outstanding, nor with each other. */
  lemma {:induction false} LaunchIndependent(v: View, orig: Memory, obls: seq<Obligation>, owned: set<nat>,
                                             bufs: seq<Chunk>, obs: seq<Obligation>, base: nat, t: Tensor, count: nat)
    requires v.Ok(orig, obls, owned) && Window(bufs, obs, base, t, v.r, count)
    ensures forall c | c in KernelCopies(bufs, t, base) :: IndependentOfAll(c, v.stream)
    ensures forall i, j | 0 <= i < j < |bufs| ::
              Independent(KernelCopies(bufs, t, base)[i], KernelCopies(bufs, t, base)[j])
  {
    hide Window, Independent, IndependentOfAll, Within, OpsOk, Untouched, DeferredOk;
    var copies := KernelCopies(bufs, t, base);
    forall i, j | 0 <= i < j < |bufs|
      ensures Independent(copies[i], copies[j])
    {
      KernelCopiesIndependent(bufs, obs, base, t, v.r, count, i, j);
    }
    forall i | 0 <= i < |bufs|
      ensures IndependentOfAll(copies[i], v.stream)
    {
      KernelCopyAt(bufs, obs, base, t, v.r, count, i);
      QueueIndependent(v, orig, obls, owned, copies[i]);
    }
    assert forall c | c in copies :: IndependentOfAll(c, v.stream);
  }

  /** The view after the first i copies of the launch have been queued. */
  ghost function Launched(v: View, bufs: seq<Chunk>, t: Tensor, base: nat, i: nat): View
    requires i <= |bufs|
  {
    v.(stream := v.stream + KernelCopies(bufs, t, base)[..i], r := v.r.Take(t.ptr.Plus(base), Sizes(bufs[..i])))
  }

  lemma {:induction false} LaunchStep(v: View, orig: Memory, obls: seq<Obligation>, owned: set<nat>,
                                      bufs: seq<Chunk>, obs: seq<Obligation>, others: seq<Obligation>,
                                      base: nat, t: Tensor, count: nat, i: nat)
    requires Window(bufs, obs, base, t, v.r, count) && i < |bufs|
    requires Launched(v, bufs, t, base, i).Ok(orig, obls, owned)
    requires Launched(v, bufs, t, base, i).Pending(orig, obls, obs[i..] + others)
    ensures Launched(v, bufs, t, base, i + 1).Ok(orig, obls, owned)
    ensures Launched(v, bufs, t, base, i + 1).Pending(orig, obls, obs[i + 1..] + others)
  {
    hide View.Ok, View.Pending;
    var v0, v1 := Launched(v, bufs, t, base, i), Launched(v, bufs, t, base, i + 1);
    var copies := KernelCopies(bufs, t, base);
    WindowAt(bufs, obs, base, t, v.r, count, i);
    DropHead(obs, others, i);
    assert copies[..i + 1] == copies[..i] + [copies[i]];
    assert v1.stream == v0.stream + [copies[i]];
    DirectCopy(v0, v1, orig, obls, owned, obs[i], copies[i], true, obs[i..] + others, obs[i + 1..] + others);
  }

  /** A launched kernel meets the obligations of its window. */
  lemma {:induction false} KernelLaunch(v: View, orig: Memory, obls: seq<Obligation>, owned: set<nat>,
                                        bufs: seq<Chunk>, obs: seq<Obligation>, others: seq<Obligation>,
                                        base: nat, t: Tensor, count: nat, i: nat)
    requires v.Ok(orig, obls, owned) && v.Pending(orig, obls, obs + others)
    requires Window(bufs, obs, base, t, v.r, count) && i <= |bufs|
    ensures Launched(v, bufs, t, base, i).Ok(orig, obls, owned)
    ensures Launched(v, bufs, t, base, i).Pending(orig, obls, obs[i..] + others)
  {
    hide View.Ok, View.Pending;
    if i == 0 {
      assert obs[0..] == obs;
      assert v.stream + KernelCopies(bufs, t, base)[..0] == v.stream;
      TakeNothing(v.r, t.ptr.Plus(base));
      assert Launched(v, bufs, t, base, 0) == v;
    } else {
      KernelLaunch(v, orig, obls, owned, bufs, obs, others, base, t, count, i - 1);
      LaunchStep(v, orig, obls, owned, bufs, obs, others, base, t, count, i - 1);
    }
  }

  lemma {:induction false} LaunchedAll(v: View, bufs: seq<Chunk>, t: Tensor, base: nat)
    ensures Launched(v, bufs, t, base, |bufs|)
         == v.(stream := v.stream + KernelCopies(bufs, t, base), r := v.r.Take(t.ptr.Plus(base), Sizes(bufs)))
  {
    var copies := KernelCopies(bufs, t, base);
    assert bufs[..|bufs|] == bufs && copies[..|bufs|] == copies;
  }

  lemma {:induction false} WindowLength(bufs: seq<Chunk>, obs: seq<Obligation>, base: nat, t: Tensor, r: Regions,
                                        count: nat, others: seq<Obligation>)
    requires Window(bufs, obs, base, t, r, count)
    ensures |obs| == |bufs| && obs[|bufs|..] + others == others
  {}

  // ---------------------------------------------------------------------------
  // The two pending windows
  // ---------------------------------------------------------------------------

  /** Two windows of a tensor have no byte in common. */
  predicate Separate(base0: nat, size0: nat, base1: nat, size1: nat) {
    size0 == 0 || size1 == 0 || base0 + size0 <= base1 || base1 + size1 <= base0
  }

  /** The bytes from offset on have not been given to any copy. */
  ghost predicate TailUnwritten(t: Tensor, offset: nat, r: Regions) {
    forall l: Loc | In(l, t.ptr, t.size) && t.ptr.addr + offset <= l.addr :: l in r.unwritten
  }

  /** A window lies within its tensor. */
  lemma {:induction false} WindowSpends(p: Win, k: Win, t: Tensor, offset: nat, r: Regions, count: nat)
    requires Windows(p, k, t, offset, r, count)
    ensures r.SpendsOnly(r.Take(t.ptr.Plus(p.base), p.size), t.ptr, t.size)
    ensures r.SpendsOnly(r.Take(t.ptr.Plus(k.base), k.size), t.ptr, t.size)
    ensures TailUnwritten(t, offset, r)
  {}

  /** Writing one window leaves the other one, and the tail, alone. */
  lemma {:induction false} OtherWindowStays(bufs: seq<Chunk>, obs: seq<Obligation>, base: nat, t: Tensor, r: Regions,
                                            count: nat, base1: nat, size1: nat, offset: nat)
    requires Window(bufs, obs, base, t, r, count) && Separate(base, Sizes(bufs), base1, size1)
    requires TailUnwritten(t, offset, r) && (size1 > 0 ==> base1 + size1 <= offset)
    ensures Window(bufs, obs, base, t, r.Take(t.ptr.Plus(base1), size1), count)
    ensures TailUnwritten(t, offset, r.Take(t.ptr.Plus(base1), size1))
    ensures forall o | o in obs :: Apart(o.copy.dst, o.copy.n, t.ptr.Plus(base1), size1)
  {
    forall i | 0 <= i < |bufs|
      ensures Apart(obs[i].copy.dst, obs[i].copy.n, t.ptr.Plus(base1), size1)
    {
      SizesStep(bufs, i);
    }
  }

  /** A buffer that is put directly behind a window, or starts one. */
  lemma {:induction false} WindowExtend(bufs: seq<Chunk>, obs: seq<Obligation>, base: nat, t: Tensor, r: Regions,
                                        count: nat, input: Chunk, offset: nat, ob: Obligation)
    requires Window(bufs, obs, base, t, r, count) && TailUnwritten(t, offset, r)
    requires Sizes(bufs) > 0 ==> base + Sizes(bufs) == offset
    requires Named(input, count) && Within(input.ptr, input.size, r.inputs) && offset + input.size <= t.size
    requires ob == Obligation(ToCopy(input, t, offset), input.first, input.last)
    ensures Sizes(bufs + [input]) == Sizes(bufs) + input.size
    ensures Window(bufs + [input], obs + [ob], if Sizes(bufs) == 0 then offset else base, t, r, count)
  {
    hide Sizes;
    var bufs', obs', base' := bufs + [input], obs + [ob], if Sizes(bufs) == 0 then offset else base;
    assert bufs'[..|bufs|] == bufs;
    SizesStep(bufs', |bufs|);
    assert bufs'[..|bufs| + 1] == bufs';
    assert Within(t.ptr.Plus(base'), Sizes(bufs'), r.unwritten);
    forall i | 0 <= i < |bufs'|
      ensures Named(bufs'[i], count) && obs'[i].first == bufs'[i].first && obs'[i].last == bufs'[i].last
      ensures Within(bufs'[i].ptr, bufs'[i].size, r.inputs) && obs'[i].copy.n == bufs'[i].size
      ensures bufs'[i].size > 0 ==> obs'[i].copy == ToCopy(bufs'[i], t, base' + Sizes(bufs'[..i]))
    {
      hide Within;
      assert bufs'[..i] == bufs[..i];
      if i < |bufs| {
        SizesStep(bufs, i);
      }
    }
  }

  /** A new obligation that has failed, or whose bytes nobody has been given. */
  lemma {:induction false} AddObligation(v: View, orig: Memory, obls: seq<Obligation>, owned: set<nat>,
                                         ob: Obligation, pending: seq<Obligation>)
    requires v.Ok(orig, obls, owned) && v.Pending(orig, obls, pending) && ob.first <= ob.last < |v.live|
    requires AllNull(v.live, ob.first, ob.last) || Within(ob.copy.dst, ob.copy.n, v.r.unwritten)
    ensures v.Ok(orig, obls + [ob], owned) && v.Pending(orig, obls + [ob], pending + [ob])
    ensures AllNull(v.live, ob.first, ob.last) ==> v.Pending(orig, obls + [ob], pending)
  {
    forall d | d in v.deferred
      ensures forall o | o in obls + [ob] ::
                || AllNull(v.live, o.first, o.last)
                || Apart(o.copy.dst, o.copy.n, d.copy.dst, d.copy.n)
                || CoveredBy(o, d.requests)
    {
      assert v.r.Given(d.copy.dst, d.copy.n);
    }
  }

  lemma {:induction false} LiveDrops(v0: View, v1: View, orig: Memory, obls: seq<Obligation>, owned: set<nat>,
                                     pending: seq<Obligation>)
    requires v0.Ok(orig, obls, owned) && v0.Pending(orig, obls, pending)
    requires v1 == v0.(live := v1.live) && OnlyNulled(v0.live, v1.live)
    ensures v1.Ok(orig, obls, owned) && v1.Pending(orig, obls, pending)
  {
    var c := Copy(StagingAt(0, 0), StagingAt(0, 0), 0);
    StillProgress(obls, v0.Eventual(), v1.Eventual(), orig, v0.live, v1.live, v0.r, v1.r, c, pending);
    DeferredStillOk(v0.deferred, obls, v0.live, v1.live, v0.r, v1.r);
  }

  /** A chunk that does not fit fails its responses and changes nothing else. */
  lemma {:induction false} ChunkRefused(v0: View, v1: View, orig: Memory, obls: seq<Obligation>, owned: set<nat>,
                                        ob: Obligation, pending: seq<Obligation>)
    requires v0.Ok(orig, obls, owned) && v0.Pending(orig, obls, pending) && ob.first <= ob.last < |v0.live|
    requires v1 == v0.(live := v1.live) && OnlyNulled(v0.live, v1.live) && AllNull(v1.live, ob.first, ob.last)
    ensures v1.Ok(orig, obls + [ob], owned) && v1.Pending(orig, obls + [ob], pending)
  {
    hide View.Ok, View.Pending;
    LiveDrops(v0, v1, orig, obls, owned, pending);
    AddObligation(v1, orig, obls, owned, ob, pending);
  }

  /** A chunk that is put behind a pending window. */
  lemma {:induction false} ChunkPending(v0: View, v1: View, orig: Memory, obls: seq<Obligation>, owned: set<nat>,
                                        ob: Obligation, pinned: seq<Obligation>, kernel: seq<Obligation>)
    requires v0.Ok(orig, obls, owned) && v0.Pending(orig, obls, pinned + kernel) && ob.first <= ob.last < |v0.live|
    requires v1 == v0.(live := v1.live) && OnlyNulled(v0.live, v1.live)
    requires Within(ob.copy.dst, ob.copy.n, v0.r.unwritten)
    ensures v1.Ok(orig, obls + [ob], owned)
    ensures v1.Pending(orig, obls + [ob], (pinned + [ob]) + kernel)
    ensures v1.Pending(orig, obls + [ob], pinned + (kernel + [ob]))
  {
    hide View.Ok, Done;
    LiveDrops(v0, v1, orig, obls, owned, pinned + kernel);
    AddObligation(v1, orig, obls, owned, ob, pinned + kernel);
    assert pinned + kernel + [ob] == pinned + (kernel + [ob]);
    assert forall o | o in pinned + kernel + [ob] :: o in (pinned + [ob]) + kernel;
  }

  /** A chunk that is copied right away, or fails its responses. */
  lemma {:induction false} ChunkCopied(v0: View, v1: View, orig: Memory, obls: seq<Obligation>, owned: set<nat>,
                                       ob: Obligation, ok: bool, pending: seq<Obligation>)
    requires v0.Ok(orig, obls, owned) && v0.Pending(orig, obls, pending) && ob.first <= ob.last < |v0.live|
    requires Within(ob.copy.src, ob.copy.n, v0.r.inputs) && Within(ob.copy.dst, ob.copy.n, v0.r.unwritten)
    requires || (!ok && v1.mem == v0.mem && v1.stream == v0.stream && AllNull(v1.live, ob.first, ob.last))
             || (ok && v1.mem == Apply(v0.mem, ob.copy) && v1.stream == v0.stream)
             || (ok && v1.mem == v0.mem && v1.stream == v0.stream + [ob.copy])
    requires OnlyNulled(v0.live, v1.live) && v1.deferred == v0.deferred && v1.r == v0.r.Take(ob.copy.dst, ob.copy.n)
    ensures v1.Ok(orig, obls + [ob], owned) && v1.Pending(orig, obls + [ob], pending)
  {
    hide View.Ok, View.Pending;
    AddObligation(v0, orig, obls, owned, ob, pending);
    DirectCopy(v0, v1, orig, obls + [ob], owned, ob, ob.copy, ok, pending + [ob], pending);
  }

  lemma {:induction false} TailPart(t: Tensor, offset: nat, n: nat, r: Regions)
    requires TailUnwritten(t, offset, r)
    ensures offset + n <= t.size ==> Within(t.ptr.Plus(offset), n, r.unwritten)
    ensures TailUnwritten(t, offset + n, r)
  {}

  /** A pending window: its buffers, where they go, and their obligations. */
  datatype Win = Win(bufs: seq<Chunk>, base: nat, size: nat, obs: seq<Obligation>) {
    ghost predicate Ok(t: Tensor, r: Regions, count: nat) {
      size == Sizes(bufs) && Window(bufs, obs, base, t, r, count)
    }

    function Put(input: Chunk, offset: nat): Win {
      Win(bufs + [input], if size == 0 then offset else base, size + input.size, obs)
    }

    function Add(input: Chunk, offset: nat, ob: Obligation): Win {
      Put(input, offset).(obs := obs + [ob])
    }

    predicate EndsBy(offset: nat) { size > 0 ==> base + size <= offset }
    predicate EndsAt(offset: nat) { size > 0 ==> base + size == offset }
  }

  /** Both windows lie before offset, apart from each other, and they and the
      bytes from offset on are unwritten. */
  ghost predicate Windows(p: Win, k: Win, t: Tensor, offset: nat, r: Regions, count: nat) {
    && p.Ok(t, r, count) && k.Ok(t, r, count) && TailUnwritten(t, offset, r)
    && Separate(p.base, p.size, k.base, k.size) && p.EndsBy(offset) && k.EndsBy(offset)
  }

  lemma {:induction false} WindowsSizes(p: Win, k: Win, t: Tensor, offset: nat, r: Regions, count: nat)
    requires Windows(p, k, t, offset, r, count)
    ensures p.size == Sizes(p.bufs) && k.size == Sizes(k.bufs)
  {}

  lemma {:induction false} WindowsSwap(p: Win, k: Win, t: Tensor, offset: nat, r: Regions, count: nat)
    requires Windows(p, k, t, offset, r, count)
    ensures Windows(k, p, t, offset, r, count)
  {}

  lemma {:induction false} WindowsGrow(p: Win, k: Win, t: Tensor, offset: nat, r: Regions, count: nat,
                                       input: Chunk, ob: Obligation)
    requires Windows(p, k, t, offset, r, count) && p.EndsAt(offset)
    requires Named(input, count) && Within(input.ptr, input.size, r.inputs) && offset + input.size <= t.size
    requires ob == Obligation(ToCopy(input, t, offset), input.first, input.last)
    ensures Windows(p.Add(input, offset, ob), k, t, offset + input.size, r, count)
  {
    hide Window, TailUnwritten, Within, Sizes, Named;
    WindowExtend(p.bufs, p.obs, p.base, t, r, count, input, offset, ob);
    TailPart(t, offset, input.size, r);
  }

  lemma {:induction false} WindowsSkip(p: Win, k: Win, t: Tensor, offset: nat, n: nat, r: Regions, count: nat)
    requires Windows(p, k, t, offset, r, count)
    ensures Windows(p, k, t, offset + n, r, count)
    ensures offset + n <= t.size ==> Within(t.ptr.Plus(offset), n, r.unwritten)
  {
    hide Window;
    TailPart(t, offset, n, r);
  }

  lemma {:induction false} WindowsPast(p: Win, k: Win, t: Tensor, offset: nat, n: nat, r: Regions, count: nat)
    requires Windows(p, k, t, offset, r, count)
    ensures Windows(p, k, t, offset + n, r.Take(t.ptr.Plus(offset), n), count)
  {
    hide TailUnwritten, Window;
    TailPart(t, offset, n, r);
    OtherWindowStays(p.bufs, p.obs, p.base, t, r, count, offset, n, offset + n);
    OtherWindowStays(k.bufs, k.obs, k.base, t, r, count, offset, n, offset + n);
  }

  lemma {:induction false} WindowsFlushed(p: Win, k: Win, t: Tensor, offset: nat, r: Regions, count: nat, base: nat)
    requires Windows(p, k, t, offset, r, count) && base <= t.size
    ensures Windows(Win([], base, 0, []), k, t, offset, r.Take(t.ptr.Plus(p.base), p.size), count)
    ensures forall o | o in k.obs :: Apart(o.copy.dst, o.copy.n, t.ptr.Plus(p.base), p.size)
  {
    OtherWindowStays(k.bufs, k.obs, k.base, t, r, count, p.base, p.size, offset);
  }

  /** A new destination, apart from everything known so far. */
  lemma {:induction false} GrantTensor(v0: View, v1: View, orig: Memory, obls: seq<Obligation>, owned: set<nat>,
                                       t: Tensor, pending: seq<Obligation>)
    requires v0.Ok(orig, obls, owned) && v0.Pending(orig, obls, pending)
    requires v1 == v0.(r := v0.r.Grant(t.ptr, t.size))
    requires forall l: Loc | In(l, t.ptr, t.size) :: l !in v0.r.inputs && l !in v0.r.dests && !l.space.Staging?
    ensures v1.Ok(orig, obls, owned) && v1.Pending(orig, obls, pending)
    ensures TailUnwritten(t, 0, v1.r)
  {
    var c := Copy(StagingAt(0, 0), StagingAt(0, 0), 0);
    OpsStillOk(v0.Queue(), v0.r, v1.r, owned, owned);
    StillProgress(obls, v0.Eventual(), v1.Eventual(), orig, v0.live, v1.live, v0.r, v1.r, c, pending);
    DeferredStillOk(v0.deferred, obls, v0.live, v1.live, v0.r, v1.r);
  }

  /** Pieces that the iterator may still deliver: their requests exist, in order,
      and their bytes are input bytes. */
  ghost predicate GoodPieces(ps: seq<Piece>, inputs: iset<Loc>, count: nat) {
    && Ordered(ps) && forall p | p in ps :: p.req < count && Within(p.ptr, p.size, inputs)
  }

  lemma {:induction false} GoodDelivered(reqs: seq<Request>, coalesce: bool, inputs: iset<Loc>)
    requires forall p | p in Flatten(reqs) :: Within(p.ptr, p.size, inputs)
    ensures GoodPieces(Delivered(reqs, coalesce), inputs, |reqs|)
  {
    var d := Delivered(reqs, coalesce);
    FlattenPrefix(reqs, Visited(reqs, coalesce));
    FlattenOrdered(reqs);
    assert d == Flatten(reqs)[..|d|];
    forall p | p in d
      ensures p.req < |reqs| && p in Flatten(reqs)
    {
      var i :| 0 <= i < |d| && d[i] == p;
      assert Flatten(reqs)[i] == p;
    }
  }

  /** A merged chunk consists of input bytes as well. */
  lemma {:induction false} GoodChunk(ps: seq<Piece>, n: nat, inputs: iset<Loc>, count: nat)
    requires GoodPieces(ps, inputs, count) && 1 <= n <= |ps| && IsRun(ps[..n])
    ensures Named(Merge(ps[..n]), count) && Within(Merge(ps[..n]).ptr, Merge(ps[..n]).size, inputs)
    ensures GoodPieces(ps[n..], inputs, count)
  {
    assert ps[0] in ps && ps[n - 1] in ps;
    RunWithin(ps[..n], inputs);
  }

  lemma {:induction false} RunWithin(ps: seq<Piece>, inputs: iset<Loc>)
    requires ps != [] && IsRun(ps) && forall p | p in ps :: Within(p.ptr, p.size, inputs)
    ensures Within(ps[0].ptr, Total(ps), inputs)
  {
    var p, l := ps[..|ps| - 1], ps[|ps| - 1];
    assert l in ps;
    if p != [] {
      RunWithin(p, inputs);
      RunEnd(p);
      assert Adjacent(p[|p| - 1], l);
    }
  }

  lemma {:induction false} CallObligationsStep(t: Tensor, cs: seq<Chunk>, c: Chunk)
    ensures CallObligations(t, cs + [c])
         == CallObligations(t, cs) + [Obligation(ToCopy(c, t, Sizes(cs)), c.first, c.last)]
    ensures Sizes(cs + [c]) == Sizes(cs) + c.size
  {
    assert (cs + [c])[..|cs|] == cs;
  }

  /** One step of the walk over the chunks. */
  lemma {:induction false} NextChunk(done: seq<Chunk>, ps: seq<Piece>, coalesce: bool, all: seq<Chunk>,
                                     input: Chunk, rest: seq<Piece>, inputs: iset<Loc>, count: nat)
    requires ps != [] && GoodPieces(ps, inputs, count) && done + Chunks(ps, coalesce) == all
    requires input == Merge(ps[..RunLength(ps, coalesce)]) && rest == ps[RunLength(ps, coalesce)..]
    ensures (done + [input]) + Chunks(rest, coalesce) == all && |rest| < |ps|
    ensures Named(input, count) && Within(input.ptr, input.size, inputs) && GoodPieces(rest, inputs, count)
  {
    hide GoodPieces, IsRun, Named, Chunks, Merge, Within;
    GoodChunk(ps, RunLength(ps, coalesce), inputs, count);
    FirstChunk(ps, coalesce);
    assert (done + [input]) + Chunks(rest, coalesce) == done + ([input] + Chunks(rest, coalesce));
  }

  lemma {:induction false} FirstChunk(ps: seq<Piece>, coalesce: bool)
    requires ps != []
    ensures var n := RunLength(ps, coalesce);
            Chunks(ps, coalesce) == [Merge(ps[..n])] + Chunks(ps[n..], coalesce)
  {}

  lemma {:induction false} NoMoreChunks(done: seq<Chunk>, coalesce: bool)
    ensures done + Chunks([], coalesce) == done
  {}

  // ---------------------------------------------------------------------------
  // Deferred windows
  // ---------------------------------------------------------------------------

  /** The first deferred copy is performed at once, queued, or refused. */
  ghost predicate DeferredDone(v0: View, v1: View, d: DeferredPinned, how: Outcome) {
    && v0.deferred == [d] + v1.deferred && OnlyNulled(v0.live, v1.live) && v1.r == v0.r && !how.Later?
    && (how.AtOnce? ==> v1.mem == Apply(v0.mem, d.copy) && v1.stream == v0.stream)
    && (how.OnStream? ==> v1.mem == v0.mem && v1.stream == v0.stream + [d.copy])
    && (how.Refused? ==> v1.mem == v0.mem && v1.stream == v0.stream
                         && forall b | b in d.requests :: AllNull(v1.live, b.first, b.last))
  }

  /** Deferred copies do not conflict with one another. */
  lemma {:induction false} DeferredApart(ds: seq<DeferredPinned>, obls: seq<Obligation>, live: seq<bool>, r: Regions,
                                         i: nat, j: nat)
    requires r.Valid() && DeferredOk(ds, obls, live, r) && i < j < |ds|
    ensures Independent(ds[i].copy, ds[j].copy) && Independent(ds[j].copy, ds[i].copy)
  {
    var c, d := ds[i], ds[j];
    assert c in ds && d in ds;
    assert r.Given(c.copy.dst, c.copy.n) && r.Given(d.copy.dst, d.copy.n);
  }

  /** The deferred copy that is next conflicts with none behind it. */
  lemma {:induction false} NextDeferred(v: View, ds: seq<DeferredPinned>, i: nat, orig: Memory, obls: seq<Obligation>,
                                        owned: set<nat>)
    requires i < |ds| && v.deferred == ds[i..] && v.Ok(orig, obls, owned)
    ensures v.deferred == [ds[i]] + ds[i + 1..]
    ensures forall b | b in ds[i].requests :: Named(b, |v.live|)
    ensures forall j | i < j < |ds| :: Independent(ds[j].copy, ds[i].copy)
  {
    hide Independent, OpsOk, Untouched;
    assert ds[i] in v.deferred;
    forall j | i < j < |ds|
      ensures Independent(ds[j].copy, ds[i].copy)
    {
      DeferredApart(v.deferred, obls, v.live, v.r, 0, j - i);
    }
  }

  lemma {:induction false} DeferredEffect(v0: View, v1: View, d: DeferredPinned, how: Outcome)
    requires DeferredDone(v0, v1, d, how)
    requires IndependentOfAll(d.copy, v0.stream) && IndependentOfAll(d.copy, Plans(v1.deferred))
    ensures forall l: Loc :: v0.Eventual()(l)
                          == (if how.Refused? then Apply(v1.Eventual(), d.copy)(l) else v1.Eventual()(l))
  {
    var rest := Plans(v1.deferred);
    assert Plans(v0.deferred) == [d.copy] + rest;
    assert v0.Queue() == v0.stream + [d.copy] + rest;
    InsertCopy(v0.mem, v0.stream, d.copy, rest);
    if how.AtOnce? {
      assert IndependentOfAll(d.copy, v0.stream + rest);
      HostCopy(v0.mem, d.copy, v0.stream + rest);
    }
  }

  lemma {:induction false} DeferredKeepsPending(v0: View, v1: View, orig: Memory, obls: seq<Obligation>,
                                                owned: set<nat>,
                                                d: DeferredPinned, how: Outcome)
    requires v0.Ok(orig, obls, owned) && v0.Pending(orig, obls, []) && DeferredDone(v0, v1, d, how)
    requires forall l: Loc :: v0.Eventual()(l)
                           == (if how.Refused? then Apply(v1.Eventual(), d.copy)(l) else v1.Eventual()(l))
    ensures v1.Pending(orig, obls, []) && Untouched(v1.Eventual(), orig, v1.r)
  {
    var m0, m1 := v0.Eventual(), v1.Eventual();
    assert d in v0.deferred;
    forall ob | ob in obls
      ensures Done(ob, m1, orig, v1.live, v1.r)
    {
      assert Done(ob, m0, orig, v0.live, v0.r);
      if how.Refused? && CoveredBy(ob, d.requests) {
        var b :| b in d.requests && b.first == ob.first && b.last == ob.last;
        assert AllNull(v1.live, b.first, b.last);
      } else if !AllNull(v0.live, ob.first, ob.last) {
        assert forall l: Loc | In(l, ob.copy.dst, ob.copy.n) :: m1(l) == m0(l);
      }
    }
  }

  lemma {:induction false} DeferredStep(v0: View, v1: View, orig: Memory, obls: seq<Obligation>, owned: set<nat>,
                                        d: DeferredPinned, how: Outcome)
    requires v0.Ok(orig, obls, owned) && v0.Pending(orig, obls, []) && DeferredDone(v0, v1, d, how)
    requires IndependentOfAll(d.copy, v0.stream)
    ensures v1.Ok(orig, obls, owned) && v1.Pending(orig, obls, [])
  {
    hide View.Eventual, View.Queue, DeferredOk, Progress;
    DeferredRest(v0, v1, d, how, obls);
    DeferredEffect(v0, v1, d, how);
    DeferredKeepsPending(v0, v1, orig, obls, owned, d, how);
    OpsStillOk(v0.Queue(), v0.r, v1.r, owned, owned);
  }

  lemma {:induction false} DeferredRest(v0: View, v1: View, d: DeferredPinned, how: Outcome, obls: seq<Obligation>)
    requires v0.r.Valid() && DeferredOk(v0.deferred, obls, v0.live, v0.r) && DeferredDone(v0, v1, d, how)
    ensures IndependentOfAll(d.copy, Plans(v1.deferred))
    ensures DeferredOk(v1.deferred, obls, v1.live, v1.r)
    ensures forall op | op in v1.Queue() :: op in v0.Queue()
  {
    hide Independent, IndependentOfAll, DeferredOk;
    var ds, rest := v0.deferred, v1.deferred;
    DeferredIndependent(d, rest, obls, v0.live, v0.r);
    DeferredStillOk(ds, obls, v0.live, v1.live, v0.r, v1.r);
    DeferredTail(d, rest, obls, v1.live, v1.r);
    assert Plans(ds) == [d.copy] + Plans(rest);
    QueueShrinks(v0.stream, d.copy, Plans(rest));
  }

  lemma {:induction false} DeferredIndependent(d: DeferredPinned, rest: seq<DeferredPinned>, obls: seq<Obligation>,
                                               live: seq<bool>, r: Regions)
    requires r.Valid() && DeferredOk([d] + rest, obls, live, r)
    ensures IndependentOfAll(d.copy, Plans(rest))
  {
    hide DeferredOk, Independent;
    forall j | 0 <= j < |rest|
      ensures Independent(d.copy, rest[j].copy)
    {
      DeferredApart([d] + rest, obls, live, r, 0, j + 1);
    }
  }

  lemma {:induction false} QueueShrinks(s: seq<Copy>, c: Copy, p: seq<Copy>)
    ensures forall op | op in s + p :: op in s + ([c] + p)
    ensures forall op | op in (s + [c]) + p :: op in s + ([c] + p)
  {}

  lemma {:induction false} DeferredTail(d: DeferredPinned, rest: seq<DeferredPinned>, obls: seq<Obligation>,
                                        live: seq<bool>, r: Regions)
    requires DeferredOk([d] + rest, obls, live, r)
    ensures DeferredOk(rest, obls, live, r)
  {
    hide DeferredOne, Apart;
    var ds := [d] + rest;
    assert forall i | 0 <= i < |rest| :: rest[i] == ds[i + 1];
    forall i, j | 0 <= i < j < |rest|
      ensures Apart(rest[i].copy.dst, rest[i].copy.n, rest[j].copy.dst, rest[j].copy.n)
    {
      assert Apart(ds[i + 1].copy.dst, ds[i + 1].copy.n, ds[j + 1].copy.dst, ds[j + 1].copy.n);
    }
    assert forall e | e in rest :: e in ds;
  }

  /** Waiting for the stream does not change where the gather is heading. */
  lemma {:induction false} Synchronized(v0: View, v1: View, orig: Memory, obls: seq<Obligation>, owned: set<nat>,
                                        pending: seq<Obligation>)
    requires v0.Ok(orig, obls, owned) && v0.Pending(orig, obls, pending)
    requires v1 == v0.(mem := Drain(v0.mem, v0.stream), stream := [])
    ensures v1.Ok(orig, obls, owned) && v1.Pending(orig, obls, pending)
  {
    hide DeferredOk, Progress, Untouched, OpsOk, Drain, Plans;
    DrainConcat(v0.mem, v0.stream, Plans(v0.deferred));
    assert v1.Queue() == Plans(v0.deferred);
    assert v1.Eventual() == v0.Eventual();
    FewerOps(v0.stream, Plans(v0.deferred), v0.r, owned);
  }

  lemma {:induction false} FewerOps(a: seq<Copy>, b: seq<Copy>, r: Regions, owned: set<nat>)
    requires OpsOk(a + b, r, owned)
    ensures OpsOk(b, r, owned)
  {
    hide OpOk;
    assert forall op | op in b :: op in a + b;
  }

  /** With nothing deferred any more, what is queued settles every obligation. */
  lemma {:induction false} AllSettled(v: View, orig: Memory, obls: seq<Obligation>, owned: set<nat>)
    requires v.Ok(orig, obls, owned) && v.Pending(orig, obls, []) && v.deferred == []
    ensures forall ob | ob in obls :: Settled(ob, Drain(v.mem, v.stream), orig, v.live)
    ensures Untouched(Drain(v.mem, v.stream), orig, v.r)
  {
    assert v.Queue() == v.stream;
  }
}

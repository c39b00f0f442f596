/** The scatter in progress, as a value: pending outputs, staged slices, and what
    each kind of step does to the view shared with the gather. */
module ScatterViews {
  import opened DeviceMemory
  import opened Responses
  import opened Delivery
  import opened InputIteration
  import opened InputBytes
  import opened GatherViews

  /** A response's output buffer: a chunk whose one request is the response. */
  function OutputData(response: nat, buffer: Loc, size: nat): Chunk {
    Chunk(buffer, size, response, response)
  }

  function FromTensor(out: Chunk, t: Loc, offset: nat): Copy {
    Copy(t.Plus(offset), out.ptr, out.size)
  }

  /** The buffer was handed out for the one response that the output belongs to. */
  predicate Own(out: Chunk) {
    out.first == out.last && out.ptr.space.IsFor(out.first)
  }

  /** out waits for the tensor's bytes at offset; its buffer is unwritten. */
  ghost predicate Waits(out: Chunk, ob: Obligation, t: Loc, offset: nat, r: Regions, count: nat) {
    && Own(out) && out.first < count && ob.first == ob.last == out.first
    && Within(out.ptr, out.size, r.unwritten) && ob.copy.n == out.size
    && (out.size > 0 ==> ob.copy == FromTensor(out, t, offset))
  }

  /** outs are pending: what they are to receive lies in the tensor from base on,
      one behind the other; their buffers have no byte in common. */
  ghost predicate Outputs(outs: seq<Chunk>, obs: seq<Obligation>, base: nat, t: Loc, r: Regions, count: nat) {
    && |obs| == |outs| && Within(t.Plus(base), Sizes(outs), r.inputs)
    && (forall i | 0 <= i < |outs| :: Waits(outs[i], obs[i], t, base + Sizes(outs[..i]), r, count))
    && (forall i, j | 0 <= i < j < |outs| :: Apart(outs[i].ptr, outs[i].size, outs[j].ptr, outs[j].size))
  }

  lemma {:induction false} SizesCons(outs: seq<Chunk>, j: nat)
    requires outs != [] && j < |outs|
    ensures Sizes(outs[..j + 1]) == outs[0].size + Sizes(outs[1..][..j])
    ensures Sizes(outs) == outs[0].size + Sizes(outs[1..])
  {
    assert Sizes([outs[0]]) == Sizes([]) + outs[0].size;
    SizesConcat([outs[0]], outs[1..][..j]);
    assert outs[..j + 1] == [outs[0]] + outs[1..][..j];
    SizesConcat([outs[0]], outs[1..]);
    assert outs == [outs[0]] + outs[1..];
  }

  lemma {:induction false} EmptySizes()
    ensures Sizes([]) == 0
  {}

  lemma {:induction false} OneSize(out: Chunk)
    ensures Sizes([out]) == out.size
  {
    assert Sizes([out]) == Sizes([]) + out.size;
  }

  lemma {:induction false} WaitsFirst(out: Chunk, ob: Obligation, t: Loc, offset: nat, r: Regions, count: nat)
    requires Waits(out, ob, t, offset, r, count)
    ensures Within(out.ptr, out.size, r.unwritten) && (out.size > 0 ==> ob.copy == FromTensor(out, t, offset))
  {}

  /** An output goes on waiting while other bytes are taken. */
  lemma {:induction false} WaitsOn(out: Chunk, ob: Obligation, t: Loc, offset: nat, r: Regions, count: nat, p: Loc, n: nat)
    requires Waits(out, ob, t, offset, r, count) && Apart(p, n, out.ptr, out.size)
    ensures Waits(out, ob, t, offset, r.Take(p, n), count)
  {}

  /** The first pending output, and the ones left when it has its bytes. */
  lemma {:induction false} OutputsTail(outs: seq<Chunk>, obs: seq<Obligation>, base: nat, t: Loc, r: Regions,
                                       count: nat)
    requires outs != [] && Outputs(outs, obs, base, t, r, count)
    ensures Within(t.Plus(base), outs[0].size, r.inputs) && Within(outs[0].ptr, outs[0].size, r.unwritten)
    ensures outs[0].size > 0 ==> obs[0].copy == FromTensor(outs[0], t, base)
    ensures Outputs(outs[1..], obs[1..], base + outs[0].size, t, r.Take(outs[0].ptr, outs[0].size), count)
    ensures Sizes(outs) == outs[0].size + Sizes(outs[1..])
  {
    hide Waits, Apart, Sizes;
    SizesCons(outs, 0);
    EmptySizes();
    assert outs[..0] == [];
    var r1 := r.Take(outs[0].ptr, outs[0].size);
    WaitsFirst(outs[0], obs[0], t, base, r, count);
    forall i | 0 <= i < |outs| - 1
      ensures Waits(outs[1..][i], obs[1..][i], t, base + outs[0].size + Sizes(outs[1..][..i]), r1, count)
    {
      SizesCons(outs, i);
      assert Apart(outs[0].ptr, outs[0].size, outs[i + 1].ptr, outs[i + 1].size);
      WaitsOn(outs[i + 1], obs[i + 1], t, base + Sizes(outs[..i + 1]), r, count, outs[0].ptr, outs[0].size);
    }
    assert Within(t.Plus(base + outs[0].size), Sizes(outs[1..]), r.inputs);
  }

  /** A fresh buffer that is granted, and perhaps taken, leaves the pending
      outputs alone. */
  lemma {:induction false} OutputsStay(outs: seq<Chunk>, obs: seq<Obligation>, base: nat, t: Loc, r: Regions,
                                       count: nat,
                                       p: Loc, n: nat)
    requires r.Valid() && Outputs(outs, obs, base, t, r, count) && forall l: Loc | In(l, p, n) :: l !in r.dests
    ensures Outputs(outs, obs, base, t, r.Grant(p, n), count)
    ensures Outputs(outs, obs, base, t, r.Grant(p, n).Take(p, n), count)
    ensures forall i | 0 <= i < |outs| :: Apart(outs[i].ptr, outs[i].size, p, n)
    ensures Within(p, n, r.Grant(p, n).unwritten)
  {}

  /** One more output, whose bytes follow those of the ones before it. */
  lemma {:induction false} OutputsGrow(outs: seq<Chunk>, obs: seq<Obligation>, base: nat, t: Loc, r: Regions,
                                       count: nat,
                                       out: Chunk, offset: nat)
    requires Outputs(outs, obs, base, t, r, count) && Own(out) && out.first < count
    requires Sizes(outs) > 0 ==> base + Sizes(outs) == offset
    requires Within(t.Plus(offset), out.size, r.inputs) && Within(out.ptr, out.size, r.unwritten)
    requires forall i | 0 <= i < |outs| :: Apart(outs[i].ptr, outs[i].size, out.ptr, out.size)
    ensures Sizes(outs + [out]) == Sizes(outs) + out.size
    ensures Outputs(outs + [out], obs + [Obligation(FromTensor(out, t, offset), out.first, out.first)],
                    if Sizes(outs) == 0 then offset else base, t, r, count)
  {
    hide Sizes, Apart;
    EmptySizes();
    var outs' := outs + [out];
    var obs' := obs + [Obligation(FromTensor(out, t, offset), out.first, out.first)];
    var base' := if Sizes(outs) == 0 then offset else base;
    assert outs'[..|outs|] == outs;
    SizesConcat(outs, [out]);
    OneSize(out);
    forall i | 0 <= i < |outs'|
      ensures Waits(outs'[i], obs'[i], t, base' + Sizes(outs'[..i]), r, count)
    {
      assert outs'[..i] == outs[..i];
      if i < |outs| {
        assert Waits(outs[i], obs[i], t, base + Sizes(outs[..i]), r, count);
        SizesStep(outs, i);
      }
    }
    hide Waits, Apart;
    assert Within(t.Plus(base'), Sizes(outs'), r.inputs);
  }

  // ---------------------------------------------------------------------------
  // A staged slice of the tensor
  // ---------------------------------------------------------------------------

  ghost predicate AllFailed(outs: seq<Chunk>, live: seq<bool>) {
    forall b | b in outs :: AllNull(live, b.first, b.last)
  }

  /** n bytes of staging region s, from off on, are or will be those of the
      tensor from src on, unless all responses waiting for them have failed. */
  ghost predicate Sliced(v: View, orig: Memory, s: nat, off: nat, src: Loc, n: nat, outs: seq<Chunk>) {
    || AllFailed(outs, v.live)
    || forall l: Loc | In(l, StagingAt(s, off), n) :: v.Eventual()(l) == orig(Shift(l, StagingAt(s, off), src))
  }

  ghost predicate NoStageWrites(ops: seq<Copy>, s: nat) {
    forall op | op in ops :: forall l: Loc | In(l, op.dst, op.n) :: l.space != Staging(s)
  }

  /** The pending slice is copied into its staging region, or all its responses fail. */
  lemma {:induction false} SliceStaged(v0: View, v1: View, orig: Memory, obls: seq<Obligation>, owned: set<nat>, s: nat,
                                       outs: seq<Chunk>, obs: seq<Obligation>, base: nat, t: Loc, count: nat, ok: bool)
    requires v0.Ok(orig, obls, owned) && v0.Pending(orig, obls, obs) && s in owned && outs != []
    requires StagingUse(v0.Queue(), s, 0) && Outputs(outs, obs, base, t, v0.r, count)
    requires OnlyNulled(v0.live, v1.live) && v1.deferred == v0.deferred && v1.r == v0.r
    requires var c := Copy(t.Plus(base), StagingAt(s, 0), Sizes(outs));
             || (!ok && v1.mem == v0.mem && v1.stream == v0.stream && AllFailed(outs, v1.live))
             || (ok && v1.mem == Apply(v0.mem, c) && v1.stream == v0.stream)
             || (ok && v1.mem == v0.mem && v1.stream == v0.stream + [c])
    ensures v1.Ok(orig, obls, owned) && v1.Pending(orig, obls, obs)
    ensures Sliced(v1, orig, s, 0, t.Plus(base), Sizes(outs), outs)
  {
    hide View.Ok, View.Pending, Outputs, StagingUse, Independent;
    var n := Sizes(outs);
    var c := Copy(t.Plus(base), StagingAt(s, 0), n);
    var buf := Chunk(t.Plus(base), n, outs[0].first, outs[0].last);
    assert outs[0] in outs;
    SliceSource(outs, obs, base, t, v0.r, count);
    StageKeeps(v0, v1, orig, obls, owned, obs, s, 0, buf, c, ok);
    StageEffect(v0, v1, orig, obls, owned, s, 0, buf, c, ok);
    if ok {
      forall l: Loc | In(l, StagingAt(s, 0), n)
        ensures v1.Eventual()(l) == orig(Shift(l, StagingAt(s, 0), t.Plus(base)))
      {
        assert In(Shift(l, c.dst, c.src), c.src, c.n);
      }
    }
  }

  lemma {:induction false} SliceSource(outs: seq<Chunk>, obs: seq<Obligation>, base: nat, t: Loc, r: Regions,
                                       count: nat)
    requires Outputs(outs, obs, base, t, r, count)
    ensures Within(t.Plus(base), Sizes(outs), r.inputs)
    ensures |obs| == |outs| && forall b | b in outs :: Own(b) && b.first < count
  {}

  /** An obligation is met out of staging memory, at once, on the stream or later,
      or its response fails. */
  lemma {:induction false} FromStaging(v0: View, v1: View, orig: Memory, obls: seq<Obligation>, owned: set<nat>, s: nat,
                                       ob: Obligation, c: Copy, out: Chunk, how: Outcome,
                                       pending0: seq<Obligation>, pending1: seq<Obligation>)
    requires v0.Ok(orig, obls, owned) && v0.Pending(orig, obls, pending0) && s in owned
    requires (forall l: Loc | In(l, c.src, c.n) :: l.space == Staging(s)) && Within(c.dst, c.n, v0.r.unwritten)
    requires ob.copy.n == c.n && (c.n > 0 ==> ob.copy.dst == c.dst) && ob.first == out.first && ob.last == out.last
    requires || AllNull(v0.live, ob.first, ob.last)
             || forall l: Loc | In(l, c.src, c.n) :: v0.Eventual()(l) == orig(Shift(l, c.src, ob.copy.src))
    requires WindowCopied(v0, v1, c, [out], how) && out.first <= out.last < |v0.live|
    requires how.AtOnce? ==> NoStageWrites(v0.stream, s)
    requires forall o | o in pending0 :: o == ob || o in pending1
    requires forall o | o in pending1 :: Apart(o.copy.dst, o.copy.n, c.dst, c.n)
    ensures v1.Ok(orig, obls, owned) && v1.Pending(orig, obls, pending1)
  {
    WindowEffect(v0, v1, orig, obls, owned, c, s, [out], how);
    FromStagingDeferred(v0, v1, orig, obls, ob, c, out, how, pending0, pending1);
    hide DeferredOk, Progress, View.Eventual;
    FromStagingPending(v0, v1, orig, obls, ob, c, out, how, pending0, pending1);
    hide Done, Apart;
    OpsStillOk(v0.Queue(), v0.r, v1.r, owned, owned);
    assert OpOk(c, v1.r, owned);
  }

  lemma {:induction false} FromStagingPending(v0: View, v1: View, orig: Memory, obls: seq<Obligation>,
                                              ob: Obligation, c: Copy, out: Chunk, how: Outcome,
                                              pending0: seq<Obligation>, pending1: seq<Obligation>)
    requires v0.Pending(orig, obls, pending0) && v0.r.Valid() && Untouched(v0.Eventual(), orig, v0.r)
    requires Within(c.dst, c.n, v0.r.unwritten) && ob.copy.n == c.n && (c.n > 0 ==> ob.copy.dst == c.dst)
    requires || AllNull(v0.live, ob.first, ob.last)
             || forall l: Loc | In(l, c.src, c.n) :: v0.Eventual()(l) == orig(Shift(l, c.src, ob.copy.src))
    requires WindowCopied(v0, v1, c, [out], how) && ob.first == out.first && ob.last == out.last
    requires forall l: Loc :: v1.Eventual()(l) == (if how.Refused? then v0.Eventual()(l) else Apply(v0.Eventual(), c)(l))
    requires forall o | o in pending0 :: o == ob || o in pending1
    ensures v1.Pending(orig, obls, pending1) && Untouched(v1.Eventual(), orig, v1.r)
  {
    hide View.Eventual;
    var m0, m1 := v0.Eventual(), v1.Eventual();
    StillProgress(obls, m0, m1, orig, v0.live, v1.live, v0.r, v1.r, c, pending0);
    if how.Refused? {
      assert out in [out];
    } else if !AllNull(v0.live, ob.first, ob.last) && c.n > 0 {
      forall l: Loc | In(l, c.dst, c.n)
        ensures m1(l) == orig(Shift(l, ob.copy.dst, ob.copy.src))
      {
        assert In(Shift(l, c.dst, c.src), c.src, c.n);
      }
    }
    assert Done(ob, m1, orig, v1.live, v1.r);
  }

  lemma {:induction false} FromStagingDeferred(v0: View, v1: View, orig: Memory, obls: seq<Obligation>,
                                               ob: Obligation, c: Copy, out: Chunk, how: Outcome,
                                               pending0: seq<Obligation>, pending1: seq<Obligation>)
    requires v0.r.Valid() && DeferredOk(v0.deferred, obls, v0.live, v0.r) && v0.Pending(orig, obls, pending0)
    requires (forall l: Loc | In(l, c.src, c.n) :: l.space.Staging?) && Within(c.dst, c.n, v0.r.unwritten)
    requires ob.first == out.first && ob.last == out.last
    requires WindowCopied(v0, v1, c, [out], how) && out.first <= out.last < |v0.live|
    requires forall o | o in pending0 :: o == ob || o in pending1
    requires forall o | o in pending1 :: Apart(o.copy.dst, o.copy.n, c.dst, c.n)
    ensures DeferredOk(v1.deferred, obls, v1.live, v1.r)
  {
    DeferredStillOk(v0.deferred, obls, v0.live, v1.live, v0.r, v1.r);
    if how.Later? {
      forall o | o in obls
        ensures AllNull(v1.live, o.first, o.last) || Apart(o.copy.dst, o.copy.n, c.dst, c.n) || CoveredBy(o, [out])
      {
        if o == ob {
          assert out in [out];
        } else if o !in pending1 {
          assert Done(o, v0.Eventual(), orig, v0.live, v0.r);
        }
      }
      forall e | e in v0.deferred
        ensures Apart(e.copy.dst, e.copy.n, c.dst, c.n)
      {
        assert v0.r.Given(e.copy.dst, e.copy.n);
      }
    }
  }

  /** A staged slice is being handed out: outs still wait for their parts of it. */
  ghost predicate Slicing(v: View, orig: Memory, obls: seq<Obligation>, owned: set<nat>, s: nat, off: nat,
                          outs: seq<Chunk>, obs: seq<Obligation>, base: nat, t: Loc) {
    && v.Ok(orig, obls, owned) && v.Pending(orig, obls, obs) && s in owned
    && Outputs(outs, obs, base, t, v.r, |v.live|)
    && Sliced(v, orig, s, off, t.Plus(base), Sizes(outs), outs)
  }

  /** The first pending output gets its bytes from the staged slice; the rest of
      the slice is left for the outputs behind it. */
  lemma {:induction false} OutputStep(v0: View, v1: View, orig: Memory, obls: seq<Obligation>, owned: set<nat>, s: nat,
                                      off: nat, outs: seq<Chunk>, obs: seq<Obligation>, base: nat, t: Loc, how: Outcome)
    requires outs != [] && Slicing(v0, orig, obls, owned, s, off, outs, obs, base, t) && |v1.live| == |v0.live|
    requires WindowCopied(v0, v1, Copy(StagingAt(s, off), outs[0].ptr, outs[0].size), [outs[0]], how)
    requires how.AtOnce? ==> NoStageWrites(v0.stream, s)
    ensures |obs| == |outs|
    ensures Slicing(v1, orig, obls, owned, s, off + outs[0].size, outs[1..], obs[1..], base + outs[0].size, t)
  {
    hide View.Ok, View.Pending, Outputs, Sliced, Apart, Within, NoStageWrites, Sizes;
    var out, c := outs[0], Copy(StagingAt(s, off), outs[0].ptr, outs[0].size);
    OutputsTail(outs, obs, base, t, v0.r, |v0.live|);
    FirstOutput(outs, obs, base, t, v0.r, |v0.live|);
    SliceHolds(v0, orig, s, off, t.Plus(base), outs, obs[0], c);
    SliceStays(v0, v1, orig, obls, owned, s, off, t.Plus(base), outs, c, how);
    FromStaging(v0, v1, orig, obls, owned, s, obs[0], c, out, how, obs, obs[1..]);
    assert v1.r == v0.r.Take(c.dst, c.n);
    assert t.Plus(base).Plus(c.n) == t.Plus(base + out.size);
  }

  lemma {:induction false} SlicingEnds(v: View, orig: Memory, obls: seq<Obligation>, owned: set<nat>, s: nat, off: nat,
                                         outs: seq<Chunk>, obs: seq<Obligation>, base: nat, t: Loc)
    requires Slicing(v, orig, obls, owned, s, off, outs, obs, base, t)
    ensures |obs| == |outs|
    ensures outs == [] ==> v.Ok(orig, obls, owned) && v.Pending(orig, obls, [])
  {
    if outs == [] {
      assert obs == [];
    }
  }

  lemma {:induction false} SlicingSource(v: View, orig: Memory, obls: seq<Obligation>, owned: set<nat>, s: nat,
                                         off: nat,
                                         outs: seq<Chunk>, obs: seq<Obligation>, base: nat, t: Loc)
    requires Slicing(v, orig, obls, owned, s, off, outs, obs, base, t)
    ensures forall b | b in outs :: Own(b)
  {
    SliceSource(outs, obs, base, t, v.r, |v.live|);
  }

  /** Handing out the next part conflicts with nothing that is outstanding. */
  lemma {:induction false} HandOutSafe(v: View, orig: Memory, obls: seq<Obligation>, owned: set<nat>, s: nat, off: nat,
                                       outs: seq<Chunk>, obs: seq<Obligation>, base: nat, t: Loc, c: Copy)
    requires outs != [] && Slicing(v, orig, obls, owned, s, off, outs, obs, base, t) && NoStageWrites(v.stream, s)
    requires c == Copy(StagingAt(s, off), outs[0].ptr, outs[0].size)
    ensures IndependentOfAll(c, v.stream) && NoStageWrites(v.stream + [c], s)
    ensures |obs| == |outs| && Own(outs[0]) && outs[0].first < |v.live|
  {
    hide Sliced, View.Pending, Outputs;
    FirstOutput(outs, obs, base, t, v.r, |v.live|);
    OutputsTail(outs, obs, base, t, v.r, |v.live|);
    WindowIndependent(v, orig, obls, owned, c, s);
  }

  lemma {:induction false} FirstOutput(outs: seq<Chunk>, obs: seq<Obligation>, base: nat, t: Loc, r: Regions,
                                       count: nat)
    requires outs != [] && Outputs(outs, obs, base, t, r, count)
    ensures |obs| == |outs| && Own(outs[0]) && outs[0].first < count && obs[0].first == obs[0].last == outs[0].first
    ensures obs[0].copy.n == outs[0].size
    ensures outs[0].size > 0 ==> obs[0].copy == FromTensor(outs[0], t, base)
    ensures forall o | o in obs :: o == obs[0] || o in obs[1..]
    ensures forall o | o in obs[1..] :: Apart(o.copy.dst, o.copy.n, outs[0].ptr, outs[0].size)
  {
    assert outs[..0] == [];
    assert obs == [obs[0]] + obs[1..];
    forall i | 0 < i < |outs|
      ensures Apart(obs[i].copy.dst, obs[i].copy.n, outs[0].ptr, outs[0].size)
    {
      assert Apart(outs[0].ptr, outs[0].size, outs[i].ptr, outs[i].size);
    }
  }

  lemma {:induction false} SliceHolds(v: View, orig: Memory, s: nat, off: nat, src: Loc, outs: seq<Chunk>,
                                      ob: Obligation, c: Copy)
    requires outs != [] && Sliced(v, orig, s, off, src, Sizes(outs), outs)
    requires c == Copy(StagingAt(s, off), outs[0].ptr, outs[0].size)
    requires ob.first == ob.last == outs[0].first == outs[0].last && (c.n > 0 ==> ob.copy.src == src)
    ensures || AllNull(v.live, ob.first, ob.last)
            || forall l: Loc | In(l, c.src, c.n) :: v.Eventual()(l) == orig(Shift(l, c.src, ob.copy.src))
  {
    SizesCons(outs, 0);
    assert outs[0] in outs;
  }

  lemma {:induction false} SliceStays(v0: View, v1: View, orig: Memory, obls: seq<Obligation>, owned: set<nat>, s: nat,
                                      off: nat, src: Loc, outs: seq<Chunk>, c: Copy, how: Outcome)
    requires v0.Ok(orig, obls, owned) && outs != [] && Sliced(v0, orig, s, off, src, Sizes(outs), outs)
    requires c == Copy(StagingAt(s, off), outs[0].ptr, outs[0].size) && Within(c.dst, c.n, v0.r.unwritten)
    requires WindowCopied(v0, v1, c, [outs[0]], how)
    requires how.AtOnce? ==> NoStageWrites(v0.stream, s)
    ensures Sliced(v1, orig, s, off + c.n, src.Plus(c.n), Sizes(outs[1..]), outs[1..])
  {
    SizesCons(outs, 0);
    WindowEffect(v0, v1, orig, obls, owned, c, s, [outs[0]], how);
    if AllFailed(outs, v0.live) {
      assert forall b | b in outs[1..] :: b in outs;
    } else {
      forall l: Loc | In(l, StagingAt(s, off + c.n), Sizes(outs[1..]))
        ensures v1.Eventual()(l) == orig(Shift(l, StagingAt(s, off + c.n), src.Plus(c.n)))
      {
        assert In(l, StagingAt(s, off), Sizes(outs));
        assert Shift(l, StagingAt(s, off), src) == Shift(l, StagingAt(s, off + c.n), src.Plus(c.n));
      }
    }
  }

  // ---------------------------------------------------------------------------
  // Deferred slices
  // ---------------------------------------------------------------------------

  /** A staged slice whose copies to the responses wait for Finalize. */
  datatype DeferredOutputs = DeferredOutputs(serial: nat, outs: seq<Chunk>)

  /** The copies that deliver a staged slice. */
  function OutputCopies(d: DeferredOutputs): (ds: seq<DeferredPinned>)
    ensures |ds| == |d.outs|
    ensures forall j | 0 <= j < |d.outs| ::
              ds[j] == DeferredPinned(Copy(StagingAt(d.serial, Sizes(d.outs[..j])), d.outs[j].ptr, d.outs[j].size),
                                      [d.outs[j]])
  {
    seq(|d.outs|, j requires 0 <= j < |d.outs| =>
      DeferredPinned(Copy(StagingAt(d.serial, Sizes(d.outs[..j])), d.outs[j].ptr, d.outs[j].size), [d.outs[j]]))
  }

  lemma {:induction false} OutputCopiesNext(serial: nat, outs: seq<Chunk>, out: Chunk)
    ensures Sizes(outs + [out]) == Sizes(outs) + out.size
    ensures OutputCopies(DeferredOutputs(serial, outs + [out]))
         == OutputCopies(DeferredOutputs(serial, outs))
            + [DeferredPinned(Copy(StagingAt(serial, Sizes(outs)), out.ptr, out.size), [out])]
  {
    hide StagingAt;
    var more := outs + [out];
    assert more[..|outs|] == outs;
    forall j | 0 <= j < |outs|
      ensures more[..j] == outs[..j]
    {}
  }

  /** All deferred copies, in the order in which Finalize performs them. */
  function Flat(ds: seq<DeferredOutputs>): seq<DeferredPinned> {
    if ds == [] then [] else Flat(ds[..|ds| - 1]) + OutputCopies(ds[|ds| - 1])
  }

  lemma {:induction false} FlatAppend(ds: seq<DeferredOutputs>, d: DeferredOutputs)
    ensures Flat(ds + [d]) == Flat(ds) + OutputCopies(d)
  {
    assert (ds + [d])[..|ds|] == ds;
  }

  /** Finalize starts with the oldest slice. */
  lemma {:induction false} FlatFirst(ds: seq<DeferredOutputs>)
    requires ds != []
    ensures Flat(ds) == OutputCopies(ds[0]) + Flat(ds[1..])
  {
    var p, l := ds[..|ds| - 1], ds[|ds| - 1];
    if p == [] {
      assert ds[1..] == [] && Flat(p) == [];
    } else {
      FlatFirst(p);
      assert ds[1..] == p[1..] + [l];
      FlatAppend(p[1..], l);
    }
  }

  /** Every waiting output belongs to one response. */
  ghost predicate Single(ds: seq<DeferredOutputs>) {
    forall d | d in ds :: forall o | o in d.outs :: Own(o)
  }

  lemma {:induction false} FlatSingle(ds: seq<DeferredOutputs>)
    requires Single(ds)
    ensures forall d | d in Flat(ds) :: forall c | c in d.requests :: Own(c)
  {
    if ds != [] {
      var l := ds[|ds| - 1];
      FlatSingle(ds[..|ds| - 1]);
      assert l in ds;
    }
  }

  /** The j-th copy of a slice is next. */
  lemma {:induction false} NextCopy(d: DeferredOutputs, j: nat, rest: seq<DeferredPinned>)
    requires j < |d.outs|
    ensures var plan := OutputCopies(d)[j..] + rest;
            && plan[0] == DeferredPinned(Copy(StagingAt(d.serial, Sizes(d.outs[..j])), d.outs[j].ptr, d.outs[j].size),
                                         [d.outs[j]])
            && plan[1..] == OutputCopies(d)[j + 1..] + rest
    ensures Sizes(d.outs[..j + 1]) == Sizes(d.outs[..j]) + d.outs[j].size
  {
    hide Sizes, StagingAt;
    SizesStep(d.outs, j);
    var copies := OutputCopies(d);
    assert copies[j..] == [copies[j]] + copies[j + 1..];
    assert copies[j..] + rest == [copies[j]] + (copies[j + 1..] + rest);
  }

  lemma {:induction false} NoCopies(d: DeferredOutputs, rest: seq<DeferredPinned>)
    ensures OutputCopies(d)[0..] + rest == OutputCopies(d) + rest
    ensures OutputCopies(d)[|d.outs|..] + rest == rest
    ensures Sizes(d.outs[..0]) == 0
  {}

  /** The view after the first j copies of a slice have been put off. */
  ghost function PutOff(v: View, d: DeferredOutputs, j: nat): View
    requires j <= |d.outs|
  {
    v.(deferred := v.deferred + OutputCopies(d)[..j], r := TakeAll(v.r, d.outs[..j]))
  }

  ghost function TakeAll(r: Regions, outs: seq<Chunk>): (r': Regions)
    ensures r'.inputs == r.inputs && r'.dests == r.dests
  {
    if outs == [] then r
    else TakeAll(r, outs[..|outs| - 1]).Take(outs[|outs| - 1].ptr, outs[|outs| - 1].size)
  }

  /** Putting off the copies of a slice meets the obligations of its outputs. */
  lemma {:induction false} SlicePutOff(v: View, orig: Memory, obls: seq<Obligation>, owned: set<nat>,
                                       d: DeferredOutputs,
                                       obs: seq<Obligation>, base: nat, t: Loc, j: nat)
    requires Slicing(v, orig, obls, owned, d.serial, 0, d.outs, obs, base, t) && j <= |d.outs| == |obs|
    ensures Slicing(PutOff(v, d, j), orig, obls, owned, d.serial, Sizes(d.outs[..j]), d.outs[j..], obs[j..],
                    base + Sizes(d.outs[..j]), t)
  {
    hide Slicing, PutOff, Sizes;
    if j == 0 {
      PutOffNothing(v, d, obs);
    } else {
      SlicePutOff(v, orig, obls, owned, d, obs, base, t, j - 1);
      SlicePutOffStep(v, orig, obls, owned, d, obs, base, t, j - 1);
    }
  }

  lemma {:induction false} WholeSlicePutOff(v: View, orig: Memory, obls: seq<Obligation>, owned: set<nat>,
                                            d: DeferredOutputs,
                                            obs: seq<Obligation>, base: nat, t: Loc)
    requires Slicing(v, orig, obls, owned, d.serial, 0, d.outs, obs, base, t)
    ensures var w := v.(deferred := v.deferred + OutputCopies(d), r := TakeAll(v.r, d.outs));
            w.Ok(orig, obls, owned) && w.Pending(orig, obls, [])
  {
    hide View.Ok, View.Pending, Slicing, PutOff;
    var n := |d.outs|;
    SlicingEnds(v, orig, obls, owned, d.serial, 0, d.outs, obs, base, t);
    SlicePutOff(v, orig, obls, owned, d, obs, base, t, n);
    SlicingEnds(PutOff(v, d, n), orig, obls, owned, d.serial, Sizes(d.outs[..n]), d.outs[n..], obs[n..],
                base + Sizes(d.outs[..n]), t);
    PutOffAll(v, d);
  }

  lemma {:induction false} PutOffNothing(v: View, d: DeferredOutputs, obs: seq<Obligation>)
    ensures PutOff(v, d, 0) == v && d.outs[0..] == d.outs && obs[0..] == obs && Sizes(d.outs[..0]) == 0
  {
    assert v.deferred + OutputCopies(d)[..0] == v.deferred;
  }

  lemma {:induction false} PutOffAll(v: View, d: DeferredOutputs)
    ensures PutOff(v, d, |d.outs|) == v.(deferred := v.deferred + OutputCopies(d), r := TakeAll(v.r, d.outs))
  {
    assert OutputCopies(d)[..|d.outs|] == OutputCopies(d) && d.outs[..|d.outs|] == d.outs;
  }

  lemma {:induction false} SlicePutOffStep(v: View, orig: Memory, obls: seq<Obligation>, owned: set<nat>,
                                           d: DeferredOutputs,
                                           obs: seq<Obligation>, base: nat, t: Loc, j: nat)
    requires j < |d.outs| == |obs|
    requires Slicing(PutOff(v, d, j), orig, obls, owned, d.serial, Sizes(d.outs[..j]), d.outs[j..], obs[j..],
                     base + Sizes(d.outs[..j]), t)
    ensures Slicing(PutOff(v, d, j + 1), orig, obls, owned, d.serial, Sizes(d.outs[..j + 1]), d.outs[j + 1..], obs[j + 1..],
                    base + Sizes(d.outs[..j + 1]), t)
  {
    hide Slicing, Sizes, PutOff, OutputCopies;
    SizesStep(d.outs, j);
    PutOffStep(v, d, j);
    assert d.outs[j..][1..] == d.outs[j + 1..] && obs[j..][1..] == obs[j + 1..];
    OutputStep(PutOff(v, d, j), PutOff(v, d, j + 1), orig, obls, owned, d.serial, Sizes(d.outs[..j]),
               d.outs[j..], obs[j..], base + Sizes(d.outs[..j]), t, Later);
  }

  lemma {:induction false} PutOffStep(v: View, d: DeferredOutputs, j: nat)
    requires j < |d.outs|
    ensures WindowCopied(PutOff(v, d, j), PutOff(v, d, j + 1),
                         Copy(StagingAt(d.serial, Sizes(d.outs[..j])), d.outs[j..][0].ptr, d.outs[j..][0].size),
                         [d.outs[j..][0]], Later)
  {
    TakeAllStep(v.r, d.outs, j);
    assert OutputCopies(d)[..j + 1] == OutputCopies(d)[..j] + [OutputCopies(d)[j]];
  }

  lemma {:induction false} TakeAllStep(r: Regions, outs: seq<Chunk>, j: nat)
    requires j < |outs|
    ensures TakeAll(r, outs[..j + 1]) == TakeAll(r, outs[..j]).Take(outs[j].ptr, outs[j].size)
  {
    assert outs[..j + 1][..j] == outs[..j];
  }
}

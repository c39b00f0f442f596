/** What the chunks of an input denote as bytes, and when an input can be used
    in place without copying. */
module InputBytes {
  import opened DeviceMemory
  import opened InputIteration

  /** The bytes of a list of pieces, one piece after the other. */
  ghost function Bytes(m: Memory, ps: seq<Piece>): seq<Byte> {
    if ps == [] then []
    else Bytes(m, ps[..|ps| - 1]) + Read(m, ps[|ps| - 1].ptr, ps[|ps| - 1].size)
  }

  function Sizes(cs: seq<Chunk>): nat {
    if cs == [] then 0 else Sizes(cs[..|cs| - 1]) + cs[|cs| - 1].size
  }

  lemma {:induction false} SizesConcat(a: seq<Chunk>, b: seq<Chunk>)
    ensures Sizes(a + b) == Sizes(a) + Sizes(b)
  {
    if b == [] {
      assert a + b == a;
    } else {
      SizesConcat(a, b[..|b| - 1]);
      assert (a + b)[..|a + b| - 1] == a + b[..|b| - 1];
    }
  }

  lemma {:induction false} SizesStep(cs: seq<Chunk>, i: nat)
    requires i < |cs|
    ensures Sizes(cs[..i + 1]) == Sizes(cs[..i]) + cs[i].size <= Sizes(cs)
  {
    assert cs[..i + 1][..i] == cs[..i];
    assert cs == cs[..i + 1] + cs[i + 1..];
    SizesConcat(cs[..i + 1], cs[i + 1..]);
  }

  // ---------------------------------------------------------------------------
  // The iterator's chunks
  // ---------------------------------------------------------------------------

  /** No request that has buffers stands behind the request that ends the walk:
      without coalescing the first one without buffers, with coalescing the very
      first request if it has none. */
  predicate NothingBehindTheEnd(reqs: seq<Request>, coalesce: bool) {
    if coalesce then
      reqs != [] && reqs[0] == [] ==> forall j | 0 <= j < |reqs| :: reqs[j] == []
    else
      forall i | 0 <= i < |reqs| && reqs[i] == [] :: forall j | i <= j < |reqs| :: reqs[j] == []
  }

  /** Every buffer of every request is delivered exactly in that case. */
  lemma {:induction false} DeliveredIsEverything(reqs: seq<Request>, coalesce: bool)
    ensures Delivered(reqs, coalesce) == Flatten(reqs) <==> NothingBehindTheEnd(reqs, coalesce)
  {
    var v := Visited(reqs, coalesce);
    DeliveredUpTo(reqs, v);
    assert NothingBehindTheEnd(reqs, coalesce) <==> forall j | v <= j < |reqs| :: reqs[j] == [];
  }

  lemma {:induction false} DeliveredUpTo(reqs: seq<Request>, v: nat)
    requires v <= |reqs|
    ensures Flatten(reqs[..v]) == Flatten(reqs) <==> forall j | v <= j < |reqs| :: reqs[j] == []
  {
    EmptyTail(reqs, v);
    FlattenPrefix(reqs, v);
  }

  lemma {:induction false} EmptyTail(reqs: seq<Request>, v: nat)
    requires v <= |reqs|
    ensures |Flatten(reqs)| == |Flatten(reqs[..v])| <==> forall j | v <= j < |reqs| :: reqs[j] == []
    ensures |Flatten(reqs)| >= |Flatten(reqs[..v])|
  {
    if v == |reqs| {
      assert reqs[..v] == reqs;
    } else {
      var r := reqs[..|reqs| - 1];
      EmptyTail(r, v);
      assert r[..v] == reqs[..v];
    }
  }

  /** A request without buffers hides the ones behind it: without coalescing
      wherever it stands, with coalescing only if it is the first. */
  lemma {:induction false} EmptyRequestEndsTheWalk(b: Buffer)
    ensures Delivered([[], [b]], false) == [] == Delivered([[], [b]], true)
    ensures Delivered([[b], [], [b]], false) == Flatten([[b]])
    ensures Delivered([[b], [], [b]], true) == Flatten([[b], [], [b]])
  {
    assert [[], [b]][..0] == [];
    assert BeforeFirstEmpty([[b], [], [b]]) == 1;
    assert [[b], [], [b]][..1] == [[b]];
    assert [[b], [], [b]][..3] == [[b], [], [b]];
  }

  /** Within a run, every piece starts where the merged chunk says it does. */
  lemma {:induction false} RunOffset(ps: seq<Piece>, i: nat)
    requires i < |ps| && IsRun(ps)
    ensures ps[i].ptr == ps[0].ptr.Plus(Total(ps[..i]))
    ensures Total(ps[..i]) + ps[i].size <= Total(ps)
  {
    if i == |ps| - 1 {
      if i > 0 {
        RunOffset(ps[..i], i - 1);
        RunEnd(ps[..i]);
      }
    } else {
      RunOffset(ps[..|ps| - 1], i);
      assert ps[..|ps| - 1][..i] == ps[..i];
    }
  }

  /** Reading a merged chunk gives the bytes of the pieces it was merged from. */
  lemma {:induction false} RunBytes(m: Memory, ps: seq<Piece>)
    requires ps != [] && IsRun(ps)
    ensures Read(m, ps[0].ptr, Total(ps)) == Bytes(m, ps)
  {
    var p, l := ps[..|ps| - 1], ps[|ps| - 1];
    if p == [] {
      assert Read(m, l.ptr, l.size) == [] + Read(m, l.ptr, l.size);
    } else {
      RunBytes(m, p);
      RunEnd(p);
      assert Adjacent(p[|p| - 1], l);
      var whole, joined := Read(m, ps[0].ptr, Total(ps)), Read(m, p[0].ptr, Total(p)) + Read(m, l.ptr, l.size);
      forall k | 0 <= k < |whole|
        ensures whole[k] == joined[k]
      {
        if k >= Total(p) {
          assert l.ptr.Plus(k - Total(p)) == ps[0].ptr.Plus(k);
        }
      }
    }
  }

  /** The chunks hold all bytes of the pieces, none twice. */
  lemma {:induction false} ChunksSize(ps: seq<Piece>, coalesce: bool)
    ensures Sizes(Chunks(ps, coalesce)) == Total(ps)
    decreases |ps|
  {
    if ps != [] {
      var n := RunLength(ps, coalesce);
      ChunksSize(ps[n..], coalesce);
      TotalConcat(ps[..n], ps[n..]);
      assert ps == ps[..n] + ps[n..];
      SizesConcat([Merge(ps[..n])], Chunks(ps[n..], coalesce));
      assert Sizes([Merge(ps[..n])]) == Sizes([]) + Total(ps[..n]);
    }
  }

  /** The runs of pieces that the chunks are merged from. */
  function Runs(ps: seq<Piece>, coalesce: bool): seq<seq<Piece>> {
    if ps == [] then []
    else
      var n := RunLength(ps, coalesce);
      [ps[..n]] + Runs(ps[n..], coalesce)
  }

  function Joined(runs: seq<seq<Piece>>): seq<Piece> {
    if runs == [] then [] else runs[0] + Joined(runs[1..])
  }

  /** Taken apart again, the chunks give every piece once and in order. */
  lemma {:induction false} ChunksAreRuns(ps: seq<Piece>, coalesce: bool)
    ensures Joined(Runs(ps, coalesce)) == ps && |Runs(ps, coalesce)| == |Chunks(ps, coalesce)|
    ensures forall i | 0 <= i < |Runs(ps, coalesce)| ::
              && Runs(ps, coalesce)[i] != [] && IsRun(Runs(ps, coalesce)[i])
              && Chunks(ps, coalesce)[i] == Merge(Runs(ps, coalesce)[i])
    decreases |ps|
  {
    if ps != [] {
      ChunksAreRuns(ps[RunLength(ps, coalesce)..], coalesce);
    }
  }

  /** Without coalescing the chunks are the single buffers. */
  lemma {:induction false} ChunksAreBuffers(ps: seq<Piece>)
    ensures |Chunks(ps, false)| == |ps|
    ensures forall i | 0 <= i < |ps| :: Chunks(ps, false)[i] == Chunk(ps[i].ptr, ps[i].size, ps[i].req, ps[i].req)
  {
    if ps != [] {
      ChunksAreBuffers(ps[1..]);
      assert ps[..1] == [ps[0]];
      assert Total(ps[..1]) == Total([]) + ps[0].size;
    }
  }

  /** With coalescing no chunk starts where the one before it ends. */
  lemma {:induction false} ChunksAreMaximal(ps: seq<Piece>)
    ensures var cs := Chunks(ps, true);
            forall i, j | 0 <= i && j == i + 1 < |cs| :: cs[j].ptr != cs[i].ptr.Plus(cs[i].size)
    ensures ps != [] ==> Chunks(ps, true) != [] && Chunks(ps, true)[0].ptr == ps[0].ptr
    decreases |ps|
  {
    if ps != [] {
      var n := RunLength(ps, true);
      ChunksAreMaximal(ps[n..]);
      RunEnd(ps[..n]);
    }
  }

  predicate Ordered(ps: seq<Piece>) {
    forall i, j | 0 <= i <= j < |ps| :: ps[i].req <= ps[j].req
  }

  /** The chunks' request intervals follow one another within low..high. */
  predicate Intervals(cs: seq<Chunk>, low: nat, high: nat) {
    && (forall c | c in cs :: low <= c.first <= c.last <= high)
    && (forall i, j | 0 <= i < j < |cs| :: cs[i].last <= cs[j].first)
  }

  /** The request intervals of the chunks are ordered and stay within the
      requests of the pieces. */
  lemma {:induction false} ChunkIntervalsOrdered(ps: seq<Piece>, coalesce: bool)
    requires ps != [] && Ordered(ps)
    ensures Intervals(Chunks(ps, coalesce), ps[0].req, ps[|ps| - 1].req)
    decreases |ps|
  {
    hide IsRun, Total, RunLength, Intervals;
    var n := RunLength(ps, coalesce);
    var rest := Chunks(ps[n..], coalesce);
    assert Chunks(ps, coalesce) == [Merge(ps[..n])] + rest;
    if n < |ps| {
      ChunkIntervalsOrdered(ps[n..], coalesce);
      IntervalsCons(Merge(ps[..n]), rest, ps[n].req, ps[|ps| - 1].req);
    } else {
      assert rest == [];
      IntervalsOne(Merge(ps[..n]));
    }
  }

  lemma {:induction false} IntervalsOne(c: Chunk)
    requires c.first <= c.last
    ensures Intervals([c] + [], c.first, c.last)
  {}

  lemma {:induction false} IntervalsCons(c: Chunk, rest: seq<Chunk>, middle: nat, high: nat)
    requires c.first <= c.last <= middle <= high && Intervals(rest, middle, high)
    ensures Intervals([c] + rest, c.first, high)
  {}

  ghost predicate Covered(p: Piece, cs: seq<Chunk>) {
    exists c | c in cs :: c.first <= p.req <= c.last
  }

  /** Every piece lies in the interval of some chunk. */
  lemma {:induction false} ChunkIntervalsCover(ps: seq<Piece>, coalesce: bool, k: nat)
    requires Ordered(ps) && k < |ps|
    ensures Covered(ps[k], Chunks(ps, coalesce))
    decreases |ps|
  {
    var n := RunLength(ps, coalesce);
    var head, rest := Merge(ps[..n]), Chunks(ps[n..], coalesce);
    assert Chunks(ps, coalesce) == [head] + rest;
    if k < n {
      assert head in [head] + rest;
    } else {
      ChunkIntervalsCover(ps[n..], coalesce, k - n);
      assert ps[n..][k - n] == ps[k];
      var c :| c in rest && c.first <= ps[k].req <= c.last;
      assert c in [head] + rest;
    }
  }

  // ---------------------------------------------------------------------------
  // Using an input in place
  // ---------------------------------------------------------------------------

  /** How many pieces at the front have a null pointer. */
  function LeadingNulls(ps: seq<Piece>): (k: nat)
    ensures k <= |ps|
    ensures k < |ps| ==> !ps[k].ptr.IsNull()
    ensures forall i | 0 <= i < k :: ps[i].ptr.IsNull()
  {
    if ps == [] then 0
    else
      var k := LeadingNulls(ps[..|ps| - 1]);
      if k == |ps| - 1 && ps[k].ptr.IsNull() then k + 1 else k
  }

  predicate InOnePlace(ps: seq<Piece>, coalesce: bool) {
    ps != [] && IsRun(ps) && (coalesce || |ps| == 1)
  }

  /** The size the search reports: that of everything from the first non-null
      piece on, or of the last piece when all are null. */
  function SizeFound(ps: seq<Piece>): nat {
    var k := LeadingNulls(ps);
    if k < |ps| then Total(ps[k..]) else if ps == [] then 0 else ps[k - 1].size
  }

  /** What the search for a contiguous input has found after the pieces ps. */
  ghost predicate Found(ps: seq<Piece>, coalesce: bool, contiguous: bool, buffer: Loc, size: nat) {
    var k := LeadingNulls(ps);
    && size == SizeFound(ps)
    && (if k == |ps| then contiguous && buffer.IsNull()
        else buffer == ps[k].ptr && contiguous == InOnePlace(ps[k..], coalesce))
  }

  /** One more piece: the first non-null one starts the search, a later one
      keeps the input in one place only if it starts where the rest ends. */
  lemma {:induction false} FoundStep(ps: seq<Piece>, p: Piece, coalesce: bool, contiguous: bool, buffer: Loc, size: nat)
    requires Found(ps, coalesce, contiguous, buffer, size)
    ensures buffer.IsNull() ==> Found(ps + [p], coalesce, true, p.ptr, p.size)
    ensures !buffer.IsNull() ==>
              Found(ps + [p], coalesce, contiguous && coalesce && buffer.Plus(size) == p.ptr, buffer, size + p.size)
  {
    var k, next := LeadingNulls(ps), ps + [p];
    assert next[..|ps|] == ps;
    if buffer.IsNull() {
      assert next[|ps|..] == [p];
      assert Total([p]) == Total([]) + p.size;
    } else {
      var run := ps[k..];
      assert next[k..][..|run|] == run;
      if IsRun(run) {
        RunEnd(run);
      }
    }
  }

  /** Takes one more buffer into account. */
  method ScanBuffer(src: Buffer, ghost req: nat, coalesce: bool, contiguous0: bool, buffer0: Loc,
                    size0: nat, expectedNext0: Loc, ghost seen: seq<Piece>)
    returns (contiguous: bool, buffer: Loc, size: nat, expectedNext: Loc)
    requires Found(seen, coalesce, contiguous0, buffer0, size0)
    requires contiguous0 && !buffer0.IsNull() ==> expectedNext0 == buffer0.Plus(size0)
    ensures Found(seen + [Piece(src.ptr, src.size, req)], coalesce, contiguous, buffer, size)
    ensures contiguous && !buffer.IsNull() ==> expectedNext == buffer.Plus(size)
  {
    contiguous, buffer, size, expectedNext := contiguous0, buffer0, size0, expectedNext0;
    FoundStep(seen, Piece(src.ptr, src.size, req), coalesce, contiguous, buffer, size);
    if !buffer.IsNull() {
      if coalesce && expectedNext == src.ptr {
        expectedNext := expectedNext.Plus(src.size);
      } else {
        contiguous := false;
      }
      size := size + src.size;
    } else {
      buffer, size := src.ptr, src.size;
      expectedNext := buffer.Plus(size);
    }
  }

  /** The search skips null pointers at the front.  If there is nothing else, the input counts
      as one null buffer of the last one's size; if not, the rest is one buffer if every
      piece of it starts where the one before ends. */
  method GetInputBufferIfContiguous(requests: seq<Request>, coalesce: bool)
    returns (contiguous: bool, buffer: Loc, size: nat)
    ensures Found(Flatten(requests), coalesce, contiguous, buffer, size)
    ensures var f := Flatten(requests);
            var k := LeadingNulls(f);
            if k == |f| then contiguous && buffer.IsNull() && size == (if f == [] then 0 else f[k - 1].size)
            else buffer == f[k].ptr && size == Total(f[k..]) && contiguous == InOnePlace(f[k..], coalesce)
  {
    hide Found, Flatten, Total, InOnePlace;
    buffer, size, contiguous := Loc(Caller(Cpu, 0), 0), 0, true;
    var expectedNext := buffer;
    var r := 0;
    ghost var seen := [];
    NothingFound(requests, coalesce, buffer);
    while r < |requests|
      invariant r <= |requests| && seen == Flatten(requests[..r])
      invariant Found(seen, coalesce, contiguous, buffer, size)
      invariant contiguous && !buffer.IsNull() ==> expectedNext == buffer.Plus(size)
    {
      var b := 0;
      ghost var ps := PiecesOf(requests[r], r);
      assert seen + ps[..0] == seen;
      while b < |requests[r]|
        invariant b <= |requests[r]| && seen == Flatten(requests[..r])
        invariant Found(seen + ps[..b], coalesce, contiguous, buffer, size)
        invariant contiguous && !buffer.IsNull() ==> expectedNext == buffer.Plus(size)
      {
        assert seen + ps[..b + 1] == seen + ps[..b] + [ps[b]];
        contiguous, buffer, size, expectedNext :=
          ScanBuffer(requests[r][b], r, coalesce, contiguous, buffer, size, expectedNext, seen + ps[..b]);
        b := b + 1;
      }
      assert ps[..b] == ps;
      FlattenStep(requests, r);
      seen := seen + ps;
      r := r + 1;
    }
    assert requests[..r] == requests;
    WhatIsFound(Flatten(requests), coalesce, contiguous, buffer, size);
  }

  lemma {:induction false} NothingFound(requests: seq<Request>, coalesce: bool, buffer: Loc)
    requires buffer.IsNull()
    ensures Flatten(requests[..0]) == [] && Found([], coalesce, true, buffer, 0)
  {}

  lemma {:induction false} WhatIsFound(f: seq<Piece>, coalesce: bool, contiguous: bool, buffer: Loc, size: nat)
    requires Found(f, coalesce, contiguous, buffer, size)
    ensures var k := LeadingNulls(f);
            if k == |f| then contiguous && buffer.IsNull() && size == (if f == [] then 0 else f[k - 1].size)
            else buffer == f[k].ptr && size == Total(f[k..]) && contiguous == InOnePlace(f[k..], coalesce)
  {}

  /** When every request has a buffer and no buffer is null, the input is found in
      one place exactly when the iterator would deliver a single chunk; the buffer
      then reads as the whole concatenation.  The size is right in any case. */
  lemma {:induction false} ZeroCopyAgrees(m: Memory, reqs: seq<Request>, coalesce: bool, contiguous: bool,
                                          buffer: Loc, size: nat)
    requires reqs != [] && forall i | 0 <= i < |reqs| :: reqs[i] != []
    requires forall p | p in Flatten(reqs) :: !p.ptr.IsNull()
    requires Found(Flatten(reqs), coalesce, contiguous, buffer, size)
    ensures contiguous <==> |Chunks(Delivered(reqs, coalesce), coalesce)| == 1
    ensures size == Total(Flatten(reqs))
    ensures contiguous ==> Read(m, buffer, size) == Bytes(m, Flatten(reqs))
  {
    var f := Flatten(reqs);
    DeliveredIsEverything(reqs, coalesce);
    FlattenStep(reqs, |reqs| - 1);
    assert reqs[..|reqs|] == reqs;
    assert f != [];
    assert f[0] in f;
    assert f[0..] == f;
    SingleChunk(f, coalesce);
    if contiguous {
      RunBytes(m, f);
    }
  }

  lemma {:induction false} SingleChunk(ps: seq<Piece>, coalesce: bool)
    requires ps != []
    ensures |Chunks(ps, coalesce)| == 1 <==> InOnePlace(ps, coalesce)
  {
    var n := RunLength(ps, coalesce);
    if ps[n..] != [] {
      assert Chunks(ps[n..], coalesce) != [];
    }
    assert ps[..|ps|] == ps;
    if InOnePlace(ps, coalesce) && coalesce {
      RunLengthUnique(ps, |ps|);
    }
  }
}

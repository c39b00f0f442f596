/** Walking the buffers of one named input over a batch of requests. */
module InputIteration {
  import opened DeviceMemory

  /** One buffer of a request's input. */
  datatype Buffer = Buffer(ptr: Loc, size: nat)

  /** A buffer of the batch together with the request it belongs to. */
  datatype Piece = Piece(ptr: Loc, size: nat, req: nat)

  /** One buffer, or several address-adjacent ones read as a single buffer, with
      the first and the last request that contribute to it. */
  datatype Chunk = Chunk(ptr: Loc, size: nat, first: nat, last: nat)

  type Request = seq<Buffer>

  // ---------------------------------------------------------------------------
  // What the iterator is meant to do
  // ---------------------------------------------------------------------------

  function PiecesOf(r: Request, req: nat): (ps: seq<Piece>)
    ensures |ps| == |r|
    ensures forall i | 0 <= i < |r| :: ps[i] == Piece(r[i].ptr, r[i].size, req)
  {
    seq(|r|, i requires 0 <= i < |r| => Piece(r[i].ptr, r[i].size, req))
  }

  /** Every buffer of every request, in request order. */
  function Flatten(reqs: seq<Request>): seq<Piece> {
    if reqs == [] then []
    else Flatten(reqs[..|reqs| - 1]) + PiecesOf(reqs[|reqs| - 1], |reqs| - 1)
  }

  function Total(ps: seq<Piece>): nat {
    if ps == [] then 0 else Total(ps[..|ps| - 1]) + ps[|ps| - 1].size
  }

  /** q starts where p ends, in the same address space. */
  predicate Adjacent(p: Piece, q: Piece) {
    q.ptr == p.ptr.Plus(p.size)
  }

  /** ps is one run of adjacent pieces. */
  predicate IsRun(ps: seq<Piece>) {
    |ps| <= 1 || (IsRun(ps[..|ps| - 1]) && Adjacent(ps[|ps| - 2], ps[|ps| - 1]))
  }

  function Merge(ps: seq<Piece>): Chunk
    requires ps != []
  {
    Chunk(ps[0].ptr, Total(ps), ps[0].req, ps[|ps| - 1].req)
  }

  /** Where the run of adjacent pieces that includes piece n - 1 ends. */
  function RunFrom(ps: seq<Piece>, n: nat): (r: nat)
    requires 1 <= n <= |ps| && IsRun(ps[..n])
    ensures n <= r <= |ps| && IsRun(ps[..r])
    ensures r < |ps| ==> !Adjacent(ps[r - 1], ps[r])
    decreases |ps| - n
  {
    if n < |ps| && Adjacent(ps[n - 1], ps[n]) then
      assert ps[..n + 1][..n] == ps[..n];
      RunFrom(ps, n + 1)
    else n
  }

  /** How many pieces the first chunk takes: one, or with coalescing the longest
      run of adjacent pieces. */
  function RunLength(ps: seq<Piece>, coalesce: bool): (n: nat)
    requires ps != []
    ensures 1 <= n <= |ps| && IsRun(ps[..n])
    ensures if coalesce then n < |ps| ==> !Adjacent(ps[n - 1], ps[n]) else n == 1
  {
    if coalesce then RunFrom(ps, 1) else 1
  }

  /** The chunks of a list of pieces. */
  function Chunks(ps: seq<Piece>, coalesce: bool): seq<Chunk> {
    if ps == [] then []
    else
      var n := RunLength(ps, coalesce);
      [Merge(ps[..n])] + Chunks(ps[n..], coalesce)
  }

  /** The requests the iterator gets to: a request without buffers ends the walk,
      except that a coalescing walk steps over such a request once it is under way. */
  function Visited(reqs: seq<Request>, coalesce: bool): nat {
    if reqs == [] then 0
    else if coalesce then (if reqs[0] == [] then 0 else |reqs|)
    else BeforeFirstEmpty(reqs)
  }

  function BeforeFirstEmpty(reqs: seq<Request>): (n: nat)
    ensures n <= |reqs|
    ensures forall i | 0 <= i < n :: reqs[i] != []
    ensures n < |reqs| ==> reqs[n] == []
  {
    if reqs == [] || reqs[0] == [] then 0 else 1 + BeforeFirstEmpty(reqs[1..])
  }

  /** The pieces the iterator delivers. */
  function Delivered(reqs: seq<Request>, coalesce: bool): seq<Piece> {
    Flatten(reqs[..Visited(reqs, coalesce)])
  }

  // ---------------------------------------------------------------------------
  // Facts about flattening
  // ---------------------------------------------------------------------------

  lemma {:induction false} TotalConcat(a: seq<Piece>, b: seq<Piece>)
    ensures Total(a + b) == Total(a) + Total(b)
  {
    if b == [] {
      assert a + b == a;
    } else {
      TotalConcat(a, b[..|b| - 1]);
      assert (a + b)[..|a + b| - 1] == a + b[..|b| - 1];
    }
  }

  lemma {:induction false} FlattenPrefix(reqs: seq<Request>, n: nat)
    requires n <= |reqs|
    ensures Flatten(reqs[..n]) <= Flatten(reqs)
  {
    if n == |reqs| {
      assert reqs[..n] == reqs;
    } else {
      FlattenPrefix(reqs[..|reqs| - 1], n);
      assert reqs[..|reqs| - 1][..n] == reqs[..n];
    }
  }

  lemma {:induction false} FlattenStep(reqs: seq<Request>, n: nat)
    requires n < |reqs|
    ensures Flatten(reqs[..n + 1]) == Flatten(reqs[..n]) + PiecesOf(reqs[n], n)
    ensures Flatten(reqs[..n + 1]) <= Flatten(reqs)
  {
    assert reqs[..n + 1][..n] == reqs[..n];
    FlattenPrefix(reqs, n + 1);
  }

  lemma {:induction false} NextOffset(reqs: seq<Request>, r: nat)
    requires r < |reqs|
    ensures |Flatten(reqs[..r + 1])| == |Flatten(reqs[..r])| + |reqs[r]| <= |Flatten(reqs)|
  {
    FlattenStep(reqs, r);
  }

  /** Where buffer b of request r ends up. */
  lemma {:induction false} PieceAt(reqs: seq<Request>, r: nat, b: nat)
    requires r < |reqs| && b < |reqs[r]|
    ensures |Flatten(reqs[..r])| + b < |Flatten(reqs)|
    ensures Flatten(reqs)[|Flatten(reqs[..r])| + b] == Piece(reqs[r][b].ptr, reqs[r][b].size, r)
  {
    FlattenStep(reqs, r);
    var f := Flatten(reqs[..r + 1]);
    assert f == Flatten(reqs)[..|f|];
    assert f[|Flatten(reqs[..r])| + b] == PiecesOf(reqs[r], r)[b];
  }

  /** Pieces come in request order. */
  lemma {:induction false} FlattenOrdered(reqs: seq<Request>)
    ensures forall i | 0 <= i < |Flatten(reqs)| :: Flatten(reqs)[i].req < |reqs|
    ensures forall i, j | 0 <= i <= j < |Flatten(reqs)| :: Flatten(reqs)[i].req <= Flatten(reqs)[j].req
  {
    if reqs != [] {
      FlattenOrdered(reqs[..|reqs| - 1]);
    }
  }

  /** A run ends where its merged chunk ends. */
  lemma {:induction false} RunEnd(ps: seq<Piece>)
    requires ps != [] && IsRun(ps)
    ensures ps[|ps| - 1].ptr.Plus(ps[|ps| - 1].size) == ps[0].ptr.Plus(Total(ps))
  {
    var p := ps[..|ps| - 1];
    if p != [] {
      RunEnd(p);
      assert Adjacent(ps[|ps| - 2], ps[|ps| - 1]);
    }
  }

  /** Comparing the end of a merged chunk with the next pointer decides whether
      the next piece extends the run. */
  lemma {:induction false} ExtendMerge(ps: seq<Piece>, n: nat)
    requires 1 <= n < |ps| && IsRun(ps[..n])
    ensures Adjacent(ps[n - 1], ps[n]) <==> Merge(ps[..n]).ptr.Plus(Merge(ps[..n]).size) == ps[n].ptr
    ensures Merge(ps[..n + 1]) == Chunk(ps[0].ptr, Merge(ps[..n]).size + ps[n].size, ps[0].req, ps[n].req)
    ensures Adjacent(ps[n - 1], ps[n]) ==> IsRun(ps[..n + 1])
  {
    RunEnd(ps[..n]);
    assert ps[..n + 1][..n] == ps[..n];
  }

  /** The longest run is the only run that cannot be extended. */
  lemma {:induction false} RunLengthUnique(ps: seq<Piece>, n: nat)
    requires 1 <= n <= |ps| && IsRun(ps[..n])
    requires n < |ps| ==> !Adjacent(ps[n - 1], ps[n])
    ensures n == RunLength(ps, true)
  {
    RunFromAny(ps, n);
  }

  lemma {:induction false} RunFromAny(ps: seq<Piece>, n: nat)
    requires 1 <= n <= |ps| && IsRun(ps[..n])
    ensures RunFrom(ps, 1) == RunFrom(ps, n)
  {
    if n > 1 {
      assert ps[..n][..n - 1] == ps[..n - 1];
      RunFromAny(ps, n - 1);
    }
  }

  // ---------------------------------------------------------------------------
  // The iterator
  // ---------------------------------------------------------------------------

  class InputIterator {
    const requests: seq<Request>
    const coalesce: bool
    var currRequest: nat
    var currBuffer: nat
    var currCount: nat
    var reachEnd: bool

    ghost predicate Valid()
      reads this
    {
      && |requests| > 0
      && currBuffer <= currCount
      && (!reachEnd ==> currRequest < |requests| && currCount == |requests[currRequest]|)
      && (!reachEnd && coalesce ==> currBuffer < currCount || currRequest == currCount == 0)
      && (!reachEnd && !coalesce ==>
            && (forall i | 0 <= i < currRequest :: requests[i] != [])
            && (currBuffer < currCount || currCount == 0))
      && (!reachEnd && coalesce && currCount > 0 ==> requests[0] != [])
      && (reachEnd ==> Position() == |Delivered(requests, coalesce)|)
      && Position() <= |Delivered(requests, coalesce)|
    }

    /** How many pieces have been walked over. */
    ghost function Position(): nat
      reads this
      requires !reachEnd ==> currRequest < |requests|
    {
      if reachEnd then |Delivered(requests, coalesce)|
      else |Flatten(requests[..currRequest])| + currBuffer
    }

    /** The pieces still to come. */
    ghost function Remaining(): seq<Piece>
      reads this
      requires Valid()
    {
      Delivered(requests, coalesce)[Position()..]
    }

    constructor (requests: seq<Request>, coalesce: bool)
      requires |requests| > 0
      ensures Valid() && this.requests == requests && this.coalesce == coalesce
      ensures Remaining() == Delivered(requests, coalesce)
    {
      this.requests := requests;
      this.coalesce := coalesce;
      currRequest, currBuffer, currCount, reachEnd := 0, 0, |requests[0]|, false;
    }

    lemma {:induction false} WhereWeAre()
      requires Valid() && !reachEnd
      ensures currBuffer == currCount ==> Remaining() == []
      ensures currBuffer < currCount ==>
                && Flatten(requests[..currRequest + 1]) <= Delivered(requests, coalesce)
                && Remaining() != []
                && Remaining()[0] == Piece(requests[currRequest][currBuffer].ptr, requests[currRequest][currBuffer].size,
                                           currRequest)
    {
      hide Flatten, Delivered;
      if currBuffer < currCount {
        StandsBefore();
      } else {
        StandsAtEnd();
      }
    }

    /** The iterator stands before a buffer that is still to be delivered. */
    lemma {:induction false} StandsBefore()
      requires Valid() && !reachEnd && currBuffer < currCount
      ensures Flatten(requests[..currRequest + 1]) <= Delivered(requests, coalesce)
      ensures Remaining() != []
      ensures Remaining()[0] == Piece(requests[currRequest][currBuffer].ptr, requests[currRequest][currBuffer].size,
                                      currRequest)
    {
      hide Flatten;
      var v := Visited(requests, coalesce);
      VisitsCurrent();
      assert requests[..v][..currRequest + 1] == requests[..currRequest + 1];
      FlattenPrefix(requests[..v], currRequest + 1);
      PieceAt(requests[..v], currRequest, currBuffer);
      assert requests[..v][..currRequest] == requests[..currRequest];
    }

    lemma {:induction false} VisitsCurrent()
      requires Valid() && !reachEnd && currBuffer < currCount
      ensures currRequest < Visited(requests, coalesce)
    {
      hide Flatten, Delivered;
    }

    /** The iterator stands at a request without buffers that ends the walk. */
    lemma {:induction false} StandsAtEnd()
      requires Valid() && !reachEnd && currBuffer >= currCount
      ensures Remaining() == []
    {
      hide Flatten;
      assert Visited(requests, coalesce) == currRequest;
    }

    /** Moves on to the next request that exists. */
    method NextRequest()
      requires !reachEnd && currRequest < |requests|
      requires currCount == |requests[currRequest]| && currBuffer == currCount
      modifies this
      ensures !reachEnd
      ensures currRequest == old(currRequest) + 1
      ensures currRequest < |requests| ==> currBuffer == 0 && currCount == |requests[currRequest]|
      ensures currRequest == |requests| ==> currBuffer == old(currBuffer) && currCount == old(currCount)
    {
      currRequest := currRequest + 1;
      if currRequest < |requests| {
        currCount := |requests[currRequest]|;
        currBuffer := 0;
      }
    }

    method GetNextContiguousInput() returns (more: bool, input: Chunk)
      requires Valid()
      modifies this
      ensures Valid()
      ensures more == (old(Remaining()) != [])
      ensures !more ==> Remaining() == []
      ensures more ==>
                var n := RunLength(old(Remaining()), coalesce);
                && input == Merge(old(Remaining())[..n])
                && Remaining() == old(Remaining())[n..]
    {
      input := Chunk(Loc(Staging(0), 0), 0, 0, 0);
      if reachEnd {
        return false, input;
      }
      WhereWeAre();
      if currBuffer >= currCount {
        return false, input;
      }
      ghost var rest, start := Remaining(), Position();
      var b := requests[currRequest][currBuffer];
      currBuffer := currBuffer + 1;
      input := Chunk(b.ptr, b.size, currRequest, currRequest);
      more := true;
      assert rest[..1] == [rest[0]];
      assert Total(rest[..1]) == Total([]) + rest[0].size;
      NextOffset(requests, currRequest);
      if !coalesce {
        FinishSingle(rest, start);
        return;
      }
      assert requests[..|requests|] == requests;
      ghost var taken;
      input, taken := ExtendRun(input, rest, start);
      RunLengthUnique(rest, taken);
    }

    /** Moves to the next request when the current one is used up. */
    method FinishSingle(ghost rest: seq<Piece>, ghost start: nat)
      requires !coalesce && !reachEnd && currRequest < |requests|
      requires 1 <= currBuffer <= currCount == |requests[currRequest]|
      requires forall i | 0 <= i < currRequest :: requests[i] != []
      requires start < |Delivered(requests, coalesce)| && rest == Delivered(requests, coalesce)[start..]
      requires start + 1 == |Flatten(requests[..currRequest])| + currBuffer
      modifies this
      ensures Valid() && Remaining() == rest[1..]
    {
      if currBuffer >= currCount {
        NextOffset(requests, currRequest);
        NextRequest();
        if currRequest >= |requests| {
          reachEnd := true;
          assert Visited(requests, coalesce) == |requests|;
          assert requests[..|requests|] == requests;
        }
      }
    }

    /** The first taken pieces of rest have been merged into input, and the
        iterator stands behind them. */
    ghost predicate Merging(input: Chunk, rest: seq<Piece>, start: nat, taken: nat)
      reads this
    {
      && coalesce && !reachEnd && requests != [] && requests[0] != [] && currBuffer <= currCount
      && start <= |Flatten(requests)| && rest == Flatten(requests)[start..]
      && 1 <= taken <= |rest| && IsRun(rest[..taken]) && input == Merge(rest[..taken])
      && (currRequest < |requests| ==>
            && currCount == |requests[currRequest]|
            && start + taken == |Flatten(requests[..currRequest])| + currBuffer)
      && (currRequest >= |requests| ==> taken == |rest|)
    }

    /** Merges the buffers that follow in the current request, while they are adjacent. */
    method ExtendWithinRequest(input0: Chunk, ghost rest: seq<Piece>, ghost start: nat, ghost taken0: nat)
      returns (stop: bool, input: Chunk, ghost taken: nat)
      requires Merging(input0, rest, start, taken0) && currRequest < |requests|
      modifies this`currBuffer
      ensures Merging(input, rest, start, taken)
      ensures stop ==> currBuffer < currCount && taken < |rest| && !Adjacent(rest[taken - 1], rest[taken])
      ensures !stop ==> currBuffer == currCount
    {
      input, taken := input0, taken0;
      while currBuffer < currCount
        invariant Merging(input, rest, start, taken)
      {
        PieceAt(requests, currRequest, currBuffer);
        var next := requests[currRequest][currBuffer];
        assert rest[taken] == Piece(next.ptr, next.size, currRequest);
        ExtendMerge(rest, taken);
        if input.ptr.Plus(input.size) != next.ptr {
          return true, input, taken;
        }
        input := input.(size := input.size + next.size, last := currRequest);
        taken := taken + 1;
        currBuffer := currBuffer + 1;
      }
      stop := false;
    }

    /** Merges everything adjacent that follows, in this request and later ones. */
    method ExtendRun(input0: Chunk, ghost rest: seq<Piece>, ghost start: nat)
      returns (input: Chunk, ghost taken: nat)
      requires Merging(input0, rest, start, 1) && currRequest < |requests|
      modifies this
      ensures 1 <= taken <= |rest| && IsRun(rest[..taken]) && input == Merge(rest[..taken])
      ensures taken < |rest| ==> !Adjacent(rest[taken - 1], rest[taken])
      ensures Valid() && Remaining() == rest[taken..]
    {
      hide Merging, Valid, Remaining, IsRun, Flatten, Adjacent, Merge;
      input, taken := input0, 1;
      while currRequest < |requests|
        invariant Merging(input, rest, start, taken)
        decreases |requests| - currRequest
      {
        var stop;
        stop, input, taken := ExtendWithinRequest(input, rest, start, taken);
        if stop {
          StopsHere(input, rest, start, taken);
          return;
        }
        KeepMerging(input, rest, start, taken);
      }
      RunEnds(input, rest, start, taken);
      reachEnd := true;
      Ended();
    }

    /** The run goes on at the next request. */
    method KeepMerging(ghost input: Chunk, ghost rest: seq<Piece>, ghost start: nat, ghost taken: nat)
      requires Merging(input, rest, start, taken) && currRequest < |requests| && currBuffer == currCount
      modifies this
      ensures Merging(input, rest, start, taken) && currRequest == old(currRequest) + 1
    {
      hide Flatten, IsRun, Merge;
      assert requests[..|requests|] == requests;
      NextOffset(requests, currRequest);
      NextRequest();
    }

    /** The iterator stands before the first buffer that is not merged. */
    lemma {:induction false} StopsHere(input: Chunk, rest: seq<Piece>, start: nat, taken: nat)
      requires Merging(input, rest, start, taken) && currRequest < |requests| && currBuffer < currCount
      ensures 1 <= taken <= |rest| && IsRun(rest[..taken]) && input == Merge(rest[..taken])
      ensures Valid() && Remaining() == rest[taken..]
    {
      hide IsRun, Merge;
      assert requests[..|requests|] == requests;
      NextOffset(requests, currRequest);
    }

    /** Everything is merged. */
    lemma {:induction false} RunEnds(input: Chunk, rest: seq<Piece>, start: nat, taken: nat)
      requires Merging(input, rest, start, taken) && currRequest >= |requests|
      ensures 1 <= taken == |rest| && IsRun(rest[..taken]) && input == Merge(rest[..taken]) && rest[taken..] == []
      ensures |requests| > 0 && currBuffer <= currCount
    {}

    lemma {:induction false} Ended()
      requires reachEnd && |requests| > 0 && currBuffer <= currCount
      ensures Valid() && Remaining() == []
    {}
  }
}

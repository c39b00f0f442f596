/** Copies into the buffers of responses that have been sent already. */
module LateCopies {
  import opened DeviceMemory
  import opened Responses
  import opened Delivery
  import opened InputIteration
  import opened GatherViews

  // ---------------------------------------------------------------------------
  // What the record of issued copies says
  // ---------------------------------------------------------------------------

  /** Since the first `start` copies, when the responses live0 were left, one has been issued
      to a buffer of response i that had been sent by then. */
  ghost predicate WasLate(ops: seq<Issue>, start: nat, live0: seq<bool>, live: seq<bool>, failedAt: seq<nat>, i: nat) {
    && i < |live0| && i < |live| && i < |failedAt| && !live[i]
    && exists x | start <= x < |ops| :: ops[x].copy.dst.space.IsFor(i) && (!live0[i] || failedAt[i] <= x)
  }

  /** late are these responses.  No response has been sent in the future. */
  ghost predicate LateAre(late: iset<nat>, ops: seq<Issue>, start: nat, live0: seq<bool>, live: seq<bool>,
                          failedAt: seq<nat>) {
    && start <= |ops| && OnlyNulled(live0, live) && |failedAt| == |live|
    && (forall i | 0 <= i < |live| && live0[i] && !live[i] :: failedAt[i] <= |ops|)
    && forall i: nat :: i in late <==> WasLate(ops, start, live0, live, failedAt, i)
  }

  lemma {:induction false} NobodyYet(ops: seq<Issue>, live: seq<bool>, failedAt: seq<nat>)
    requires |failedAt| == |live|
    ensures LateAre(iset{}, ops, |ops|, live, live, failedAt)
  {}

  /** One more copy, to a buffer of response i, is late if the response has been sent. */
  lemma {:induction false} OneMoreCopy(late: iset<nat>, ops: seq<Issue>, start: nat, live0: seq<bool>, live: seq<bool>,
                                       failedAt: seq<nat>, op: Issue, i: nat)
    requires LateAre(late, ops, start, live0, live, failedAt) && i < |live| && op.copy.dst.space.IsFor(i)
    ensures LateAre(late + if live[i] then iset{} else iset{i}, ops + [op], start, live0, live, failedAt)
  {
    var ops1, late1 := ops + [op], late + if live[i] then iset{} else iset{i};
    forall k: nat
      ensures k in late1 <==> WasLate(ops1, start, live0, live, failedAt, k)
    {
      MoreCopies(ops, op, start, live0, live, failedAt, k);
    }
  }

  /** A copy to a staging region is never late. */
  lemma {:induction false} OneMoreStaged(late: iset<nat>, ops: seq<Issue>, start: nat, live0: seq<bool>, live: seq<bool>,
                                         failedAt: seq<nat>, op: Issue)
    requires LateAre(late, ops, start, live0, live, failedAt) && op.copy.dst.space.Staging?
    ensures LateAre(late, ops + [op], start, live0, live, failedAt)
  {
    forall k: nat
      ensures k in late <==> WasLate(ops + [op], start, live0, live, failedAt, k)
    {
      MoreCopies(ops, op, start, live0, live, failedAt, k);
    }
  }

  lemma {:induction false} MoreCopies(ops: seq<Issue>, op: Issue, start: nat, live0: seq<bool>, live: seq<bool>,
                                      failedAt: seq<nat>, i: nat)
    requires start <= |ops| && |live0| == |live| == |failedAt|
    requires i < |live| && live0[i] && !live[i] ==> failedAt[i] <= |ops|
    ensures WasLate(ops + [op], start, live0, live, failedAt, i)
            <==> WasLate(ops, start, live0, live, failedAt, i)
                 || (i < |live| && !live[i] && op.copy.dst.space.IsFor(i))
  {
    var ops1 := ops + [op];
    assert ops1[|ops|] == op && forall x | 0 <= x < |ops| :: ops1[x] == ops[x];
  }

  /** Nobody is late by being sent now. */
  lemma {:induction false} SentNow(late: iset<nat>, ops: seq<Issue>, start: nat, live0: seq<bool>, live: seq<bool>,
                                   failedAt: seq<nat>, live': seq<bool>)
    requires LateAre(late, ops, start, live0, live, failedAt) && OnlyNulled(live, live')
    ensures LateAre(late, ops, start, live0, live', Stamped(failedAt, live, live', |ops|))
  {
    var at := Stamped(failedAt, live, live', |ops|);
    forall i: nat
      ensures WasLate(ops, start, live0, live', at, i) <==> WasLate(ops, start, live0, live, failedAt, i)
    {}
  }

  // ---------------------------------------------------------------------------
  // Copies that are tried one after the other
  // ---------------------------------------------------------------------------

  /** A copy to a buffer of a response, and whether it was issued or refused. */
  datatype Try = Try(response: nat, copy: Copy, issued: bool)

  /** How a copy that is not refused is issued. */
  function HowIssued(c: Copy, gpu: bool, onStream: bool): Issue {
    if gpu && (onStream || c.src.space.Type() == Gpu || c.dst.space.Type() == Gpu) then ByStream(c) else ByHost(c)
  }

  /** What has been issued of the copies. */
  function IssuesOf(tries: seq<Try>, gpu: bool, onStream: bool): seq<Issue> {
    if tries == [] then []
    else
      var t := tries[|tries| - 1];
      IssuesOf(tries[..|tries| - 1], gpu, onStream) + if t.issued then [HowIssued(t.copy, gpu, onStream)] else []
  }

  lemma {:induction false} IssuesOfBoth(a: seq<Try>, b: seq<Try>, gpu: bool, onStream: bool)
    ensures IssuesOf(a + b, gpu, onStream) == IssuesOf(a, gpu, onStream) + IssuesOf(b, gpu, onStream)
  {
    if b == [] {
      assert a + b == a;
    } else {
      var b' := b[..|b| - 1];
      IssuesOfBoth(a, b', gpu, onStream);
      assert (a + b)[..|a + b| - 1] == a + b';
    }
  }

  /** The copies of the plan have been tried, in order, and those that were not refused have
      been issued, and nothing else; only what takes the device, or a null pointer, can have
      been refused. */
  ghost predicate Tried(tries: seq<Try>, plan: seq<DeferredPinned>, gpu: bool, onStream: bool, ops0: seq<Issue>,
                        ops1: seq<Issue>) {
    && |tries| == |plan| && ops1 == ops0 + IssuesOf(tries, gpu, onStream)
    && forall j | 0 <= j < |plan| :: TriedOne(tries[j], plan[j])
  }

  predicate TriedOne(t: Try, d: DeferredPinned) {
    && t.copy == d.copy && d.requests != [] && t.response == d.requests[0].first
    && (!t.issued ==> d.copy.dst.space.Type() == Gpu || d.copy.dst.IsNull())
  }

  /** Only what takes the device, or a null pointer, can have been refused. */
  predicate Sure(tries: seq<Try>) {
    forall t | t in tries && !t.issued :: t.copy.dst.space.Type() == Gpu || t.copy.dst.IsNull()
  }

  lemma {:induction false} TriedSure(tries: seq<Try>, plan: seq<DeferredPinned>, gpu: bool, onStream: bool,
                                     ops0: seq<Issue>, ops1: seq<Issue>)
    requires Tried(tries, plan, gpu, onStream, ops0, ops1)
    ensures Sure(tries) && ops0 <= ops1
    ensures forall t | t in tries && t.issued :: HowIssued(t.copy, gpu, onStream) in ops1[|ops0|..]
  {
    forall t | t in tries && t.issued
      ensures HowIssued(t.copy, gpu, onStream) in IssuesOf(tries, gpu, onStream)
    {
      InIssues(tries, gpu, onStream, t);
    }
  }

  lemma {:induction false} InIssues(tries: seq<Try>, gpu: bool, onStream: bool, t: Try)
    requires t in tries && t.issued
    ensures HowIssued(t.copy, gpu, onStream) in IssuesOf(tries, gpu, onStream)
  {
    if t != tries[|tries| - 1] {
      InIssues(tries[..|tries| - 1], gpu, onStream, t);
    }
  }

  lemma {:induction false} TriedNothing(gpu: bool, onStream: bool, ops: seq<Issue>)
    ensures Tried([], [], gpu, onStream, ops, ops)
  {}

  lemma {:induction false} TriedNext(tries: seq<Try>, plan: seq<DeferredPinned>, gpu: bool, onStream: bool,
                                     ops0: seq<Issue>, ops1: seq<Issue>, ops2: seq<Issue>, t: Try, d: DeferredPinned)
    requires Tried(tries, plan, gpu, onStream, ops0, ops1) && TriedOne(t, d)
    requires ops2 == ops1 + if t.issued then [HowIssued(t.copy, gpu, onStream)] else []
    ensures Tried(tries + [t], plan + [d], gpu, onStream, ops0, ops2)
  {
    hide TriedOne, HowIssued;
    assert (tries + [t])[..|tries|] == tries;
  }

  lemma {:induction false} TriedBoth(a: seq<Try>, plan0: seq<DeferredPinned>, b: seq<Try>, plan1: seq<DeferredPinned>,
                                     gpu: bool, onStream: bool, ops0: seq<Issue>, ops1: seq<Issue>, ops2: seq<Issue>)
    requires Tried(a, plan0, gpu, onStream, ops0, ops1) && Tried(b, plan1, gpu, onStream, ops1, ops2)
    ensures Tried(a + b, plan0 + plan1, gpu, onStream, ops0, ops2)
  {
    hide TriedOne;
    IssuesOfBoth(a, b, gpu, onStream);
  }

  /** Some copy to response i was issued. */
  ghost predicate IsIssued(tries: seq<Try>, i: nat) {
    exists j | 0 <= j < |tries| :: tries[j].issued && tries[j].response == i
  }

  ghost function IssuedTo(tries: seq<Try>): iset<nat> {
    iset i: nat | IsIssued(tries, i)
  }

  /** Some copy to response i was refused, which made it fail if it had not. */
  ghost predicate IsRefused(tries: seq<Try>, i: nat) {
    exists j | 0 <= j < |tries| :: !tries[j].issued && tries[j].response == i
  }

  /** A copy to response i was issued when it had been sent: before all of these, or for an
      earlier one of them that was refused. */
  ghost predicate IsLate(tries: seq<Try>, live: seq<bool>, i: nat) {
    exists j | 0 <= j < |tries| :: LateAt(tries, live, i, j)
  }

  ghost predicate LateAt(tries: seq<Try>, live: seq<bool>, i: nat, j: nat)
    requires j < |tries|
  {
    tries[j].issued && tries[j].response == i && i < |live| && (!live[i] || IsRefused(tries[..j], i))
  }

  ghost function LateAmong(tries: seq<Try>, live: seq<bool>): iset<nat> {
    iset i: nat | IsLate(tries, live, i)
  }

  /** Which responses are left after the copies. */
  ghost predicate LeftBy(tries: seq<Try>, live0: seq<bool>, live1: seq<bool>) {
    |live1| == |live0| && forall i: nat | i < |live0| :: live1[i] <==> live0[i] && !IsRefused(tries, i)
  }

  lemma {:induction false} NoTries(live: seq<bool>, late: iset<nat>)
    ensures LeftBy([], live, live) && late + LateAmong([], live) == late && late + IssuedTo([]) == late
  {
    assert LateAmong([], live) == iset{} && IssuedTo([]) == iset{};
  }

  /** One more copy. */
  lemma {:induction false} NextTry(tries: seq<Try>, t: Try, live0: seq<bool>, live1: seq<bool>, live2: seq<bool>)
    requires LeftBy(tries, live0, live1) && t.response < |live0|
    requires live2 == if t.issued then live1 else NullRange(live1, t.response, t.response)
    ensures LeftBy(tries + [t], live0, live2)
    ensures LateAmong(tries + [t], live0)
         == LateAmong(tries, live0) + if t.issued && !live1[t.response] then iset{t.response} else iset{}
    ensures IssuedTo(tries + [t]) == IssuedTo(tries) + if t.issued then iset{t.response} else iset{}
  {
    var ts := tries + [t];
    forall i: nat
      ensures IsRefused(ts, i) <==> IsRefused(tries, i) || (!t.issued && t.response == i)
      ensures IsIssued(ts, i) <==> IsIssued(tries, i) || (t.issued && t.response == i)
    {
      assert ts[|tries|] == t;
      assert forall j | 0 <= j < |tries| :: ts[j] == tries[j];
    }
    forall i: nat
      ensures IsLate(ts, live0, i) <==> IsLate(tries, live0, i) || (t.issued && t.response == i && !live1[i])
    {
      hide IsRefused;
      forall j | 0 <= j < |tries|
        ensures LateAt(ts, live0, i, j) <==> LateAt(tries, live0, i, j)
      {
        assert ts[..j] == tries[..j];
      }
      assert ts[..|tries|] == tries;
      assert LateAt(ts, live0, i, |tries|) <==> t.issued && t.response == i && i < |live0| && !live1[i];
      if IsLate(tries, live0, i) {
        var j :| 0 <= j < |tries| && LateAt(tries, live0, i, j);
        assert LateAt(ts, live0, i, j);
      }
    }
  }

  /** The copies of two parts, one behind the other. */
  lemma {:induction false} MoreTries(a: seq<Try>, b: seq<Try>, live0: seq<bool>, live1: seq<bool>, live2: seq<bool>)
    requires LeftBy(a, live0, live1) && LeftBy(b, live1, live2)
    ensures LeftBy(a + b, live0, live2)
    ensures LateAmong(a + b, live0) == LateAmong(a, live0) + LateAmong(b, live1)
    ensures IssuedTo(a + b) == IssuedTo(a) + IssuedTo(b)
  {
    var ts := a + b;
    forall i: nat
      ensures IsRefused(ts, i) <==> IsRefused(a, i) || IsRefused(b, i)
      ensures IsIssued(ts, i) <==> IsIssued(a, i) || IsIssued(b, i)
    {
      BothParts(a, b);
    }
    forall i: nat
      ensures IsLate(ts, live0, i) <==> IsLate(a, live0, i) || IsLate(b, live1, i)
    {
      hide IsRefused;
      forall j | 0 <= j < |a|
        ensures LateAt(ts, live0, i, j) <==> LateAt(a, live0, i, j)
      {
        assert ts[..j] == a[..j];
      }
      forall j | 0 <= j < |b|
        ensures LateAt(ts, live0, i, |a| + j) <==> LateAt(b, live1, i, j)
      {
        assert ts[..|a| + j] == a + b[..j] && ts[|a| + j] == b[j];
        RefusedInBoth(a, b[..j], i);
      }
      if j :| 0 <= j < |ts| && LateAt(ts, live0, i, j) {
        assert j >= |a| ==> LateAt(b, live1, i, j - |a|);
      }
      if j :| 0 <= j < |b| && LateAt(b, live1, i, j) {
        assert LateAt(ts, live0, i, |a| + j);
      }
      if j :| 0 <= j < |a| && LateAt(a, live0, i, j) {
        assert LateAt(ts, live0, i, j);
      }
    }
  }

  lemma {:induction false} BothParts(a: seq<Try>, b: seq<Try>)
    ensures forall j | 0 <= j < |a| :: (a + b)[j] == a[j]
    ensures forall j | 0 <= j < |b| :: (a + b)[|a| + j] == b[j]
    ensures forall j | |a| <= j < |a + b| :: (a + b)[j] == b[j - |a|]
  {}

  lemma {:induction false} RefusedInBoth(a: seq<Try>, b: seq<Try>, i: nat)
    ensures IsRefused(a + b, i) <==> IsRefused(a, i) || IsRefused(b, i)
  {
    BothParts(a, b);
  }

  /** When all buffers lie in host memory nothing can be refused: every copy was issued. */
  lemma {:induction false} HostTries(tries: seq<Try>, plan: seq<DeferredPinned>, gpu: bool, onStream: bool,
                                     ops0: seq<Issue>, ops1: seq<Issue>, outs: seq<Chunk>)
    requires Tried(tries, plan, gpu, onStream, ops0, ops1) && |outs| == |plan|
    requires forall j | 0 <= j < |plan| :: plan[j].requests == [outs[j]] && plan[j].copy.dst == outs[j].ptr
    requires forall o | o in outs :: o.first == o.last && o.ptr.space.Type() != Gpu && !o.ptr.IsNull()
    ensures IssuedTo(tries) == ResponsesOf(outs)
  {
    forall j | 0 <= j < |outs|
      ensures tries[j].issued && tries[j].response == outs[j].first && outs[j] in outs
    {
      assert TriedOne(tries[j], plan[j]) && outs[j] in outs;
    }
    forall i: nat
      ensures IsIssued(tries, i) <==> HasPart(outs, i)
    {}
  }
}

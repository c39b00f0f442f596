/** What the responses of the recommended backend carry although it never waits for the
    device: for each of them, exactly when it is right in every schedule. */
module Sending {
  import opened DeviceMemory
  import opened Delivery
  import opened InputIteration
  import opened InputBytes
  import opened GatherViews
  import opened Gather
  import opened Responders
  import opened Schedules

  /** A batch: the input's buffers, the batched tensor, whether the input was gathered into
      it or is used in place, and the buffers that the responses were given. */
  datatype Shipment = Shipment(gpu: bool, bs: seq<Request>, t: Tensor, gathered: bool, slots: seq<Slot>) {
    function Pieces(i: nat): seq<Piece>
      requires i < |bs|
    {
      PiecesOf(bs[i], i)
    }

    function Size(i: nat): nat
      requires i < |bs|
    {
      Total(Pieces(i))
    }

    function All(): seq<Piece> { Delivered(bs, false) }

    /** The copy of piece j to the batched tensor, which is in host memory. */
    function InputIssue(j: nat): Issue
      requires j < |All()|
    {
      var d := All();
      var c := Copy(d[j].ptr, t.ptr.Plus(Total(d[..j])), d[j].size);
      if gpu && d[j].ptr.space.Type() == Gpu then ByStream(c) else ByHost(c)
    }

    /** The copy of slice i to its response. */
    function OutputIssue(i: nat): Issue
      requires i < |bs| == |slots| && slots[i].Held?
    {
      var c := Copy(t.ptr.Plus(Offset(bs, i)), slots[i].p, Size(i));
      if gpu && slots[i].p.space.Type() == Gpu then ByStream(c) else ByHost(c)
    }

    /** Some bytes of request i lie in GPU memory. */
    predicate FromDevice(i: nat)
      requires i < |bs|
    {
      exists k | 0 <= k < |bs[i]| :: bs[i][k].ptr.space.Type() == Gpu && bs[i][k].size > 0
    }

    predicate ToDevice(i: nat)
      requires i < |slots|
    {
      slots[i].Held? && slots[i].p.space.Type() == Gpu
    }

    /** The request's bytes get into the batched tensor without the device. */
    predicate HostOnly(i: nat)
      requires i < |bs|
    {
      !gathered || (Reached(bs, false, i) && !(gpu && FromDevice(i)))
    }

    /** Nothing to carry; or the bytes are in the tensor before the slice is copied,
        either because the host put them there, or because the slice goes through the
        same stream. */
    predicate Carries(i: nat)
      requires i < |bs| == |slots|
    {
      || Size(i) == 0 || HostOnly(i)
      || (Reached(bs, false, i) && gpu && ToDevice(i))
    }

    /** Nothing to carry, or the device is not needed at all. */
    predicate CarriesInTime(i: nat)
      requires i < |bs| == |slots|
    {
      Size(i) == 0 || (HostOnly(i) && !(gpu && ToDevice(i)))
    }

    /** Where things are: inputs, the batched tensor and the buffers are apart. */
    ghost predicate Placed(inputs: iset<Loc>) {
      && |slots| == |bs|
      && (forall p | p in Flatten(bs) :: Within(p.ptr, p.size, inputs))
      && (forall i, j | 0 <= i < j < |slots| && slots[i].Held? && slots[j].Held? :: slots[i].p.space != slots[j].p.space)
      && (forall i | 0 <= i < |slots| && slots[i].Held? ::
            slots[i].p.space != t.ptr.space && forall l | l in inputs :: l.space != slots[i].p.space)
      && (if gathered then forall l | l in inputs :: l.space != t.ptr.space else Within(t.ptr, t.size, inputs))
      && t.size == Total(Flatten(bs))
      && (!gathered ==> forall m: Memory, i | 0 <= i < |bs| ::
            Read(m, t.ptr.Plus(Offset(bs, i)), Size(i)) == Bytes(m, Pieces(i)))
    }

    /** The copies of the pieces have been issued, apart from those whose responses have
        failed, and nothing else. */
    ghost predicate InputsIssued(ops: seq<Issue>, live: seq<bool>) {
      && (forall op | op in ops :: gathered && IsInput(op))
      && (gathered && t.size > 0 ==> forall j | 0 <= j < |All()| ::
            All()[j].req < |live| && (live[All()[j].req] ==> InputIssue(j) in ops))
    }

    ghost predicate IsInput(op: Issue) {
      exists j | 0 <= j < |All()| :: op == InputIssue(j)
    }

    /** The same for the slices. */
    ghost predicate OutputsIssued(ops: seq<Issue>, live: seq<bool>) {
      && |bs| == |slots| == |live|
      && (forall op | op in ops :: IsOutput(op))
      && (forall i | 0 <= i < |slots| && slots[i].Held? && live[i] :: OutputIssue(i) in ops)
    }

    ghost predicate IsOutput(op: Issue)
      requires |bs| == |slots|
    {
      exists i | 0 <= i < |slots| :: slots[i].Held? && op == OutputIssue(i)
    }

    /** What the host issues: first the copies of the pieces, then those of the slices. */
    ghost predicate Logged(log: seq<Issue>, n: nat, live: seq<bool>) {
      n <= |log| && InputsIssued(log[..n], live) && OutputsIssued(log[n..], live)
    }

    /** Response i has, in memory s, the bytes that its request had in m. */
    ghost predicate Holds(s: Memory, m: Memory, i: nat)
      requires i < |bs| == |slots|
    {
      slots[i].Held? && Read(s, slots[i].p, Size(i)) == Bytes(m, Pieces(i))
    }

    /** From every memory and in every schedule, once the stream has run dry. */
    ghost predicate AlwaysCarries(log: seq<Issue>, i: nat)
      requires i < |bs| == |slots|
    {
      forall m: Memory, states: seq<State>, steps: seq<Step> |
        Run(log, m, states, steps) && Over(log, states[|steps|]) :: Holds(states[|steps|].mem, m, i)
    }

    /** And already when the host has issued everything, which is when it sends. */
    ghost predicate AlwaysInTime(log: seq<Issue>, i: nat)
      requires i < |bs| == |slots|
    {
      forall m: Memory, states: seq<State>, steps: seq<Step> |
        Run(log, m, states, steps) && Issued(log, states[|steps|]) :: Holds(states[|steps|].mem, m, i)
    }
  }

  // ---------------------------------------------------------------------------
  // Bytes of pieces
  // ---------------------------------------------------------------------------

  lemma {:induction false} TotalUpTo(ps: seq<Piece>, i: nat, j: nat)
    requires i < j <= |ps|
    ensures Total(ps[..i]) + ps[i].size <= Total(ps[..j])
  {
    assert ps[..j][..j - 1] == ps[..j - 1];
    if i < j - 1 {
      TotalUpTo(ps, i, j - 1);
    }
  }

  lemma {:induction false} ByteOf(m: Memory, ps: seq<Piece>, k: nat, y: nat)
    requires k < |ps| && y < ps[k].size
    ensures Total(ps[..k]) + y < Total(ps) == |Bytes(m, ps)|
    ensures Bytes(m, ps)[Total(ps[..k]) + y] == m(ps[k].ptr.Plus(y))
  {
    var p, q := ps[..|ps| - 1], ps[|ps| - 1];
    BytesSize(m, ps);
    BytesSize(m, p);
    if k < |p| {
      ByteOf(m, p, k, y);
      assert p[..k] == ps[..k];
    } else {
      assert Bytes(m, ps) == Bytes(m, p) + Read(m, q.ptr, q.size);
    }
  }

  lemma {:induction false} BytesSize(m: Memory, ps: seq<Piece>)
    ensures |Bytes(m, ps)| == Total(ps)
  {
    if ps != [] {
      BytesSize(m, ps[..|ps| - 1]);
    }
  }

  /** If there are any bytes, some piece has one. */
  lemma {:induction false} SomePiece(ps: seq<Piece>) returns (k: nat)
    requires Total(ps) > 0
    ensures k < |ps| && ps[k].size > 0
  {
    if ps[|ps| - 1].size > 0 {
      k := |ps| - 1;
    } else {
      k := SomePiece(ps[..|ps| - 1]);
    }
  }

  // ---------------------------------------------------------------------------
  // Who writes what
  // ---------------------------------------------------------------------------

  /** The first part of the log writes the batched tensor, the second does not. */
  lemma {:induction false} TwoParts(b: Shipment, log: seq<Issue>, n: nat, live: seq<bool>, inputs: iset<Loc>)
    requires b.Placed(inputs) && b.Logged(log, n, live)
    ensures log == log[..n] + log[n..]
    ensures forall o | o in log[..n] :: b.gathered && o.copy.dst.space == b.t.ptr.space
    ensures forall o | o in log[n..] :: o.copy.dst.space != b.t.ptr.space && forall l | l in inputs :: l.space != o.copy.dst.space
  {
    hide Offset, Delivered, Flatten, Total;
    forall o | o in log[..n]
      ensures b.gathered && o.copy.dst.space == b.t.ptr.space
    {
      assert b.IsInput(o);
      var j :| 0 <= j < |b.All()| && o == b.InputIssue(j);
    }
    forall o | o in log[n..]
      ensures o.copy.dst.space != b.t.ptr.space && forall l | l in inputs :: l.space != o.copy.dst.space
    {
      assert b.IsOutput(o);
      var k :| 0 <= k < |b.slots| && b.slots[k].Held? && o == b.OutputIssue(k);
    }
  }

  /** A byte of a response's buffer is only written by the copy of its slice. */
  lemma {:induction false} SlotByte(b: Shipment, log: seq<Issue>, n: nat, live: seq<bool>, inputs: iset<Loc>, i: nat, x: nat)
    requires b.Placed(inputs) && b.Logged(log, n, live) && i < |b.slots| && b.slots[i].Held? && x < b.Size(i)
    ensures OnlyBy(log, b.slots[i].p.Plus(x), b.OutputIssue(i))
    ensures Source(b.OutputIssue(i), b.slots[i].p.Plus(x)) == b.t.ptr.Plus(Offset(b.bs, i) + x)
    ensures live[i] ==> b.OutputIssue(i) in log
  {
    hide Offset, Delivered, Flatten, Total;
    var l := b.slots[i].p.Plus(x);
    TwoParts(b, log, n, live, inputs);
    forall o | o in log && Writes(o, l)
      ensures o == b.OutputIssue(i)
    {
      assert o in log[n..];
      assert b.IsOutput(o);
      var k :| 0 <= k < |b.slots| && b.slots[k].Held? && o == b.OutputIssue(k);
    }
  }

  /** Inputs are never written. */
  lemma {:induction false} InputByte(b: Shipment, log: seq<Issue>, n: nat, live: seq<bool>, inputs: iset<Loc>, l: Loc)
    requires b.Placed(inputs) && b.Logged(log, n, live) && l in inputs
    ensures Constant(log, l)
  {
    hide Offset, Delivered, Flatten, Total;
    TwoParts(b, log, n, live, inputs);
  }

  /** A byte of the batched tensor is only written by the copy of the piece it belongs to. */
  lemma {:induction false} TensorByte(b: Shipment, log: seq<Issue>, n: nat, live: seq<bool>, inputs: iset<Loc>, l: Loc)
    requires b.Placed(inputs) && b.Logged(log, n, live) && b.gathered && l.space == b.t.ptr.space
    ensures forall o | o in log && Writes(o, l) ::
              o in log[..n] && exists j | 0 <= j < |b.All()| :: o == b.InputIssue(j) && Writes(b.InputIssue(j), l)
  {
    hide Offset, Delivered, Flatten, Total;
    TwoParts(b, log, n, live, inputs);
    forall o | o in log && Writes(o, l)
      ensures o in log[..n] && exists j | 0 <= j < |b.All()| :: o == b.InputIssue(j) && Writes(b.InputIssue(j), l)
    {
      assert b.IsInput(o);
      var j :| 0 <= j < |b.All()| && o == b.InputIssue(j);
    }
  }

  lemma {:induction false} PieceByte(b: Shipment, log: seq<Issue>, n: nat, live: seq<bool>, inputs: iset<Loc>, j: nat, y: nat)
    requires b.Placed(inputs) && b.Logged(log, n, live) && b.gathered && j < |b.All()| && y < b.All()[j].size
    ensures var l := b.t.ptr.Plus(Total(b.All()[..j]) + y);
            && OnlyBy(log, l, b.InputIssue(j)) && Source(b.InputIssue(j), l) == b.All()[j].ptr.Plus(y)
            && Constant(log, b.All()[j].ptr.Plus(y))
  {
    hide Offset, Delivered, Flatten, Total, Shipment.Logged, Constant;
    var d := b.All();
    var l := b.t.ptr.Plus(Total(d[..j]) + y);
    TensorByte(b, log, n, live, inputs, l);
    forall o | o in log && Writes(o, l)
      ensures o == b.InputIssue(j)
    {
      var i :| 0 <= i < |d| && o == b.InputIssue(i) && Writes(b.InputIssue(i), l);
      if i < j {
        TotalUpTo(d, i, j);
      } else if j < i {
        TotalUpTo(d, j, i);
      }
    }
    AllInputs(b, inputs, j, y);
    InputByte(b, log, n, live, inputs, d[j].ptr.Plus(y));
  }

  lemma {:induction false} AllInputs(b: Shipment, inputs: iset<Loc>, j: nat, y: nat)
    requires b.Placed(inputs) && j < |b.All()| && y < b.All()[j].size
    ensures b.All()[j].ptr.Plus(y) in inputs
  {
    hide Flatten;
    FlattenPrefix(b.bs, Visited(b.bs, false));
    assert b.All()[j] in Flatten(b.bs);
    assert In(b.All()[j].ptr.Plus(y), b.All()[j].ptr, b.All()[j].size);
  }

  /** A request that the iterator does not get to has its part of the tensor to itself. */
  lemma {:induction false} UnreachedByte(b: Shipment, log: seq<Issue>, n: nat, live: seq<bool>, inputs: iset<Loc>, i: nat,
                                         x: nat)
    requires b.Placed(inputs) && b.Logged(log, n, live) && i < |b.bs| && x < b.Size(i)
    requires b.gathered && !Reached(b.bs, false, i)
    ensures Constant(log, b.t.ptr.Plus(Offset(b.bs, i) + x))
  {
    hide Offset, Delivered, Flatten, Total, Shipment.Logged, Visited;
    var d, l := b.All(), b.t.ptr.Plus(Offset(b.bs, i) + x);
    BehindAll(b, i);
    TensorByte(b, log, n, live, inputs, l);
    assert d[..|d|] == d;
    forall j | 0 <= j < |d|
      ensures !Writes(b.InputIssue(j), l)
    {
      TotalUpTo(d, j, |d|);
    }
  }

  lemma {:induction false} BehindAll(b: Shipment, i: nat)
    requires i < |b.bs| && !Reached(b.bs, false, i)
    ensures Total(b.All()) <= Offset(b.bs, i)
  {
    hide Flatten, Total;
    var v := Visited(b.bs, false);
    assert b.bs[..i][..v] == b.bs[..v];
    FlattenPrefix(b.bs[..i], v);
    var f := Flatten(b.bs[..i]);
    assert f == b.All() + f[|b.All()|..];
    TotalConcat(b.All(), f[|b.All()|..]);
  }

  /** Where piece k of request i stands among those delivered. */
  lemma {:induction false} PieceOf(b: Shipment, i: nat, k: nat) returns (j: nat)
    requires i < |b.bs| && k < |b.bs[i]| && Reached(b.bs, false, i)
    ensures j < |b.All()| && b.All()[j] == b.Pieces(i)[k]
    ensures Total(b.All()[..j]) == Offset(b.bs, i) + Total(b.Pieces(i)[..k])
  {
    hide Flatten, Total, Delivered;
    j := |Flatten(b.bs[..i])| + k;
    DeliveredPiece(b.bs, false, i, k);
    TotalConcat(Flatten(b.bs[..i]), b.Pieces(i)[..k]);
  }

  lemma {:induction false} SizeBelow(b: Shipment, i: nat)
    requires i < |b.bs|
    ensures Offset(b.bs, i) + b.Size(i) <= Total(Flatten(b.bs))
  {
    hide Flatten, Total;
    OffsetStep(b.bs, i);
    FlattenPrefix(b.bs, i + 1);
    var f, g := Flatten(b.bs), Flatten(b.bs[..i + 1]);
    assert f == g + f[|g|..];
    TotalConcat(g, f[|g|..]);
  }

  // ---------------------------------------------------------------------------
  // Responses that are right in every schedule
  // ---------------------------------------------------------------------------

  /** The two copies that a byte takes on its way, the second behind the first. */
  lemma {:induction false} PieceChain(b: Shipment, log: seq<Issue>, n: nat, live: seq<bool>, inputs: iset<Loc>, i: nat, k: nat,
                                      y: nat) returns (j: nat)
    requires b.Placed(inputs) && b.Logged(log, n, live) && b.gathered
    requires i < |b.bs| && live[i] && b.slots[i].Held? && k < |b.bs[i]| && Reached(b.bs, false, i) && y < b.bs[i][k].size
    ensures j < |b.All()| && b.All()[j] == b.Pieces(i)[k] && Total(b.Pieces(i)[..k]) + y < b.Size(i)
    ensures var l := b.slots[i].p.Plus(Total(b.Pieces(i)[..k]) + y);
            && Chained(log, n, l, b.InputIssue(j), b.OutputIssue(i)) && b.OutputIssue(i) in log
            && Origin(l, b.InputIssue(j), b.OutputIssue(i)) == b.bs[i][k].ptr.Plus(y)
            && Source(b.OutputIssue(i), l) == b.t.ptr.Plus(Offset(b.bs, i) + Total(b.Pieces(i)[..k]) + y)
  {
    hide Offset, Delivered, Flatten, Total, Constant, OnlyBy, Visited;
    j := PieceOf(b, i, k);
    var m: Memory := (l: Loc) => 0;
    ByteOf(m, b.Pieces(i), k, y);
    var x := Total(b.Pieces(i)[..k]) + y;
    SlotByte(b, log, n, live, inputs, i, x);
    PieceByte(b, log, n, live, inputs, j, y);
    TwoParts(b, log, n, live, inputs);
    SizeBelow(b, i);
  }

  /** Every piece arrives, and so the whole request. */
  lemma {:induction false} GatheredHolds(b: Shipment, log: seq<Issue>, n: nat, live: seq<bool>, inputs: iset<Loc>, i: nat,
                                         m: Memory, states: seq<State>, steps: seq<Step>)
    requires b.Placed(inputs) && b.Logged(log, n, live) && b.gathered
    requires i < |b.bs| && live[i] && b.slots[i].Held? && Reached(b.bs, false, i)
    requires b.HostOnly(i) || (b.gpu && b.ToDevice(i))
    requires Run(log, m, states, steps) && Issued(log, states[|steps|])
    requires !(b.gpu && b.ToDevice(i)) || Over(log, states[|steps|])
    ensures b.Holds(states[|steps|].mem, m, i)
  {
    hide Offset, Delivered, Flatten, Total, Next, Bytes, Visited, Chained, Shipment.InputIssue;
    assert |states| == |steps| + 1 && |b.bs| == |b.slots|;
    hide Run, Shipment.Placed, Shipment.Logged;
    var ps, p, s := b.Pieces(i), b.slots[i].p, states[|steps|].mem;
    forall k | 0 <= k < |ps|
      ensures PieceArrived(s, m, p.Plus(Total(ps[..k])), ps[k])
    {
      forall l: Loc | In(l, p.Plus(Total(ps[..k])), ps[k].size)
        ensures s(l) == m(Shift(l, p.Plus(Total(ps[..k])), ps[k].ptr))
      {
        var y := l.addr - p.addr - Total(ps[..k]);
        var j := PieceChain(b, log, n, live, inputs, i, k, y);
        assert l == p.Plus(Total(ps[..k]) + y);
        assert y < ps[k].size;
        NotOvertaken(b, i, k, j);
        ChainDelivers(log, n, m, states, steps, |steps|, l, b.InputIssue(j), b.OutputIssue(i));
      }
    }
    Assemble(s, m, p, ps);
  }

  lemma {:induction false} NotOvertaken(b: Shipment, i: nat, k: nat, j: nat)
    requires i < |b.bs| == |b.slots| && k < |b.bs[i]| && b.slots[i].Held? && b.bs[i][k].size > 0
    requires j < |b.All()| && b.All()[j] == b.Pieces(i)[k]
    requires b.gathered && (b.HostOnly(i) || (b.gpu && b.ToDevice(i)))
    ensures !(b.InputIssue(j).ByStream? && b.OutputIssue(i).ByHost?)
    ensures b.OutputIssue(i).ByHost? <==> !(b.gpu && b.ToDevice(i))
  {
    hide Offset, Delivered, Flatten, Total, Visited;
  }

  /** Used in place, or not got to: the response has what the tensor held at the start. */
  lemma {:induction false} SliceCopied(b: Shipment, log: seq<Issue>, n: nat, live: seq<bool>, inputs: iset<Loc>, i: nat,
                                       m: Memory, states: seq<State>, steps: seq<Step>)
    requires b.Placed(inputs) && b.Logged(log, n, live)
    requires i < |b.bs| && live[i] && b.slots[i].Held? && (!b.gathered || !Reached(b.bs, false, i))
    requires Run(log, m, states, steps) && Issued(log, states[|steps|])
    requires !(b.gpu && b.ToDevice(i)) || Over(log, states[|steps|])
    ensures Read(states[|steps|].mem, b.slots[i].p, b.Size(i)) == Read(m, b.t.ptr.Plus(Offset(b.bs, i)), b.Size(i))
  {
    hide Offset, Delivered, Flatten, Total, Next, Visited, Shipment.Logged, Constant, OnlyBy;
    var s, p := states[|steps|].mem, b.slots[i].p;
    SizeBelow(b, i);
    forall x | 0 <= x < b.Size(i)
      ensures s(p.Plus(x)) == m(b.t.ptr.Plus(Offset(b.bs, i) + x))
    {
      var l := b.t.ptr.Plus(Offset(b.bs, i) + x);
      SlotByte(b, log, n, live, inputs, i, x);
      if b.gathered {
        UnreachedByte(b, log, n, live, inputs, i, x);
      } else {
        assert In(l, b.t.ptr, b.t.size);
        InputByte(b, log, n, live, inputs, l);
      }
      CopyDelivers(log, m, states, steps, |steps|, p.Plus(x), b.OutputIssue(i));
    }
    var start := b.t.ptr.Plus(Offset(b.bs, i));
    forall x | 0 <= x < b.Size(i)
      ensures Read(s, p, b.Size(i))[x] == Read(m, start, b.Size(i))[x]
    {
      assert start.Plus(x) == b.t.ptr.Plus(Offset(b.bs, i) + x);
    }
  }

  /** Right in this run. */
  lemma {:induction false} RightInRun(b: Shipment, log: seq<Issue>, n: nat, live: seq<bool>, inputs: iset<Loc>, i: nat,
                                      m: Memory, states: seq<State>, steps: seq<Step>)
    requires b.Placed(inputs) && b.Logged(log, n, live) && i < |b.bs| && live[i] && b.slots[i].Held?
    requires Run(log, m, states, steps) && Issued(log, states[|steps|])
    requires (b.Carries(i) && Over(log, states[|steps|])) || b.CarriesInTime(i)
    ensures b.Holds(states[|steps|].mem, m, i)
  {
    hide Offset, Delivered, Flatten, Total, Next, Bytes, Visited, Shipment.Logged, Shipment.FromDevice;
    if b.Size(i) == 0 {
      BytesSize(m, b.Pieces(i));
      assert Bytes(m, b.Pieces(i)) == [];
    } else if !b.gathered {
      SliceCopied(b, log, n, live, inputs, i, m, states, steps);
      assert Read(m, b.t.ptr.Plus(Offset(b.bs, i)), b.Size(i)) == Bytes(m, b.Pieces(i));
    } else {
      GatheredHolds(b, log, n, live, inputs, i, m, states, steps);
    }
  }

  // ---------------------------------------------------------------------------
  // Responses that are wrong in some schedule
  // ---------------------------------------------------------------------------

  /** One wrong byte is enough. */
  lemma {:induction false} WrongByte(b: Shipment, s: Memory, m: Memory, i: nat, k: nat)
    requires i < |b.bs| == |b.slots| && b.slots[i].Held? && k < |b.bs[i]| && b.bs[i][k].size > 0
    requires s(b.slots[i].p.Plus(Total(b.Pieces(i)[..k]))) != m(b.bs[i][k].ptr)
    ensures !b.Holds(s, m, i)
  {
    hide Total, Bytes;
    var x := Total(b.Pieces(i)[..k]);
    ByteOf(m, b.Pieces(i), k, 0);
    assert Read(s, b.slots[i].p, b.Size(i))[x] == s(b.slots[i].p.Plus(x));
    assert b.bs[i][k].ptr.Plus(0) == b.bs[i][k].ptr;
  }

  /** Memory that has one value in a space, and another everywhere else. */
  ghost function Marked(space: Space): Memory {
    (l: Loc) => if l.space == space then 1 else 0
  }

  lemma {:induction false} Elsewhere(b: Shipment, inputs: iset<Loc>, i: nat, k: nat)
    requires b.Placed(inputs) && i < |b.bs| && k < |b.bs[i]| && b.bs[i][k].size > 0
    ensures b.gathered ==> b.bs[i][k].ptr.space != b.t.ptr.space
    ensures b.slots[i].Held? ==> b.bs[i][k].ptr.space != b.slots[i].p.space
  {
    hide Flatten;
    PieceAt(b.bs, i, k);
    assert Flatten(b.bs)[|Flatten(b.bs[..i])| + k] in Flatten(b.bs);
    assert In(b.bs[i][k].ptr, b.bs[i][k].ptr, b.bs[i][k].size);
  }

  /** The host copies the slice while the device has yet to bring a piece of it: the
      response keeps what the batched tensor held before. */
  lemma {:induction false} StaleRun(b: Shipment, log: seq<Issue>, n: nat, live: seq<bool>, inputs: iset<Loc>, i: nat)
    returns (m: Memory, states: seq<State>, steps: seq<Step>)
    requires b.Placed(inputs) && b.Logged(log, n, live) && i < |b.bs| == |b.slots| == |live| && live[i] && b.slots[i].Held?
    requires b.gathered && Reached(b.bs, false, i) && b.gpu && b.FromDevice(i) && !b.ToDevice(i)
    ensures Run(log, m, states, steps) && Over(log, states[|steps|]) && !b.Holds(states[|steps|].mem, m, i)
  {
    hide Offset, Delivered, Flatten, Total, Next, Visited, Shipment.Placed, Shipment.Logged, OnlyBy, Constant, Shipment.Holds;
    var k :| 0 <= k < |b.bs[i]| && b.bs[i][k].ptr.space.Type() == Gpu && b.bs[i][k].size > 0;
    m := Marked(b.t.ptr.space);
    var j := PieceChain(b, log, n, live, inputs, i, k, 0);
    var l := b.slots[i].p.Plus(Total(b.Pieces(i)[..k]) + 0);
    var early;
    states, steps, early := HostOvertakes(log, m, l, b.InputIssue(j), b.OutputIssue(i));
    Elsewhere(b, inputs, i, k);
    assert l == b.slots[i].p.Plus(Total(b.Pieces(i)[..k]));
    WrongByte(b, states[|steps|].mem, m, i, k);
  }

  /** A request that the iterator does not get to: its response has what was in the tensor. */
  lemma {:induction false} UnreachedRun(b: Shipment, log: seq<Issue>, n: nat, live: seq<bool>, inputs: iset<Loc>, i: nat)
    returns (m: Memory, states: seq<State>, steps: seq<Step>)
    requires b.Placed(inputs) && b.Logged(log, n, live) && i < |b.bs| == |b.slots| == |live| && live[i] && b.slots[i].Held?
    requires b.gathered && !Reached(b.bs, false, i) && b.Size(i) > 0
    ensures Run(log, m, states, steps) && Over(log, states[|steps|]) && !b.Holds(states[|steps|].mem, m, i)
  {
    hide Offset, Delivered, Flatten, Next, Visited, Shipment.Placed, Shipment.Logged, Shipment.Holds;
    var k := SomePiece(b.Pieces(i));
    m := Marked(b.t.ptr.space);
    states, steps := SomeRun(log, m);
    SliceCopied(b, log, n, live, inputs, i, m, states, steps);
    Elsewhere(b, inputs, i, k);
    ByteOf(m, b.Pieces(i), k, 0);
    hide Total;
    var x := Total(b.Pieces(i)[..k]);
    assert Read(states[|steps|].mem, b.slots[i].p, b.Size(i))[x] == states[|steps|].mem(b.slots[i].p.Plus(x));
    assert Read(m, b.t.ptr.Plus(Offset(b.bs, i)), b.Size(i))[x] == m(b.t.ptr.Plus(Offset(b.bs, i)).Plus(x)) == 1;
    WrongByte(b, states[|steps|].mem, m, i, k);
  }

  /** The copy to a buffer in GPU memory has not run when the response is sent. */
  lemma {:induction false} UnsentRun(b: Shipment, log: seq<Issue>, n: nat, live: seq<bool>, inputs: iset<Loc>, i: nat)
    returns (m: Memory, states: seq<State>, steps: seq<Step>)
    requires b.Placed(inputs) && b.Logged(log, n, live) && i < |b.bs| == |b.slots| == |live| && live[i]
    requires b.gpu && b.ToDevice(i) && b.Size(i) > 0
    ensures Run(log, m, states, steps) && Issued(log, states[|steps|]) && !b.Holds(states[|steps|].mem, m, i)
  {
    hide Offset, Delivered, Flatten, Next, Visited, Shipment.Placed, Shipment.Logged, Shipment.Holds, OnlyBy;
    var k := SomePiece(b.Pieces(i));
    m := Marked(b.slots[i].p.space);
    ByteOf(m, b.Pieces(i), k, 0);
    hide Total;
    var x := Total(b.Pieces(i)[..k]);
    SlotByte(b, log, n, live, inputs, i, x);
    states, steps := NotYet(log, m, b.slots[i].p.Plus(x), b.OutputIssue(i));
    Elsewhere(b, inputs, i, k);
    WrongByte(b, states[|steps|].mem, m, i, k);
  }

  // ---------------------------------------------------------------------------
  // Exactly
  // ---------------------------------------------------------------------------

  /** A response that has not failed carries its bytes, from every memory and in every
      schedule, exactly if they do not depend on a copy that the host overtakes. */
  lemma {:induction false} CarriesExactlyWhen(b: Shipment, log: seq<Issue>, n: nat, live: seq<bool>, inputs: iset<Loc>, i: nat)
    requires b.Placed(inputs) && b.Logged(log, n, live) && i < |b.bs| == |b.slots| == |live| && live[i] && b.slots[i].Held?
    ensures b.AlwaysCarries(log, i) <==> b.Carries(i)
  {
    hide Offset, Delivered, Flatten, Next, Visited, Total, Shipment.Placed, Shipment.Logged, Shipment.Holds, Shipment.FromDevice;
    if b.Carries(i) {
      forall m: Memory, states: seq<State>, steps: seq<Step> | Run(log, m, states, steps) && Over(log, states[|steps|])
        ensures b.Holds(states[|steps|].mem, m, i)
      {
        RightInRun(b, log, n, live, inputs, i, m, states, steps);
      }
    } else if Reached(b.bs, false, i) {
      var m, states, steps := StaleRun(b, log, n, live, inputs, i);
    } else {
      var m, states, steps := UnreachedRun(b, log, n, live, inputs, i);
    }
  }

  /** And when it is sent, exactly if the device is not needed at all. */
  lemma {:induction false} InTimeExactlyWhen(b: Shipment, log: seq<Issue>, n: nat, live: seq<bool>, inputs: iset<Loc>, i: nat)
    requires b.Placed(inputs) && b.Logged(log, n, live) && i < |b.bs| == |b.slots| == |live| && live[i] && b.slots[i].Held?
    ensures b.AlwaysInTime(log, i) <==> b.CarriesInTime(i)
  {
    hide Offset, Delivered, Flatten, Next, Visited, Total, Shipment.Placed, Shipment.Logged, Shipment.Holds, Shipment.FromDevice;
    if b.CarriesInTime(i) {
      forall m: Memory, states: seq<State>, steps: seq<Step> | Run(log, m, states, steps) && Issued(log, states[|steps|])
        ensures b.Holds(states[|steps|].mem, m, i)
      {
        RightInRun(b, log, n, live, inputs, i, m, states, steps);
      }
    } else if b.gpu && b.ToDevice(i) {
      var m, states, steps := UnsentRun(b, log, n, live, inputs, i);
    } else if Reached(b.bs, false, i) {
      var m, states, steps := StaleRun(b, log, n, live, inputs, i);
    } else {
      var m, states, steps := UnreachedRun(b, log, n, live, inputs, i);
    }
  }
}

/** The gather kernel: one block of 512 lanes per buffer, each lane copying every
    512th word or byte, all of them side by side, with 32-bit sizes, offsets and
    indices. */
module GatherKernel {
  import opened DeviceMemory
  import opened Delivery
  import opened InputIteration
  import opened InputBytes
  import opened GatherViews
  import opened Arithmetic

  const THREADBLOCK_SIZE := 512

  predicate WordWise(c: Chunk, dst: Loc) {
    c.size % 4 == 0 && c.ptr.addr % 4 == 0 && dst.addr % 4 == 0
  }

  /** A block that copies c, behind `before` bytes of other blocks, to dst can count
      in 32 bits: its offset and size fit, and adding 512 to the index of an element
      never leaves them. */
  predicate BlockFits(c: Chunk, before: nat, dst: Loc) {
    && before < INT_LIMIT && c.size < INT_LIMIT
    && (c.size <= INT_LIMIT - THREADBLOCK_SIZE || WordWise(c, dst))
  }

  /** What the kernel is launched with: buffers for the part of the output that
      starts at out.  Block b writes behind the blocks before it. */
  datatype Launch = Launch(bufs: seq<Chunk>, out: Loc) {
    function Src(b: nat): Loc
      requires b < |bufs|
    {
      bufs[b].ptr
    }

    function ByteSize(b: nat): int
      requires b < |bufs|
    {
      ToInt(bufs[b].size)
    }

    function Dst(b: nat): Loc
      requires b < |bufs|
    {
      out.Plus(ToInt(Sizes(bufs[..b])))
    }

    /** Words when size and both addresses allow it, else bytes. */
    function Unit(b: nat): nat
      requires b < |bufs|
    {
      if ByteSize(b) % 4 == 0 && Src(b).addr % 4 == 0 && Dst(b).addr % 4 == 0 then 4 else 1
    }

    function ElementCount(b: nat): int
      requires b < |bufs|
    {
      ByteSize(b) / Unit(b)
    }

    /** The copy of one element. */
    function Element(b: nat, e: int): Copy
      requires b < |bufs|
    {
      Copy(Src(b).Plus(e * Unit(b)), Dst(b).Plus(e * Unit(b)), Unit(b))
    }

    /** How many bytes block b is able to copy. */
    function Span(b: nat): nat
      requires b < |bufs|
    {
      if ByteSize(b) > 0 then ByteSize(b) else 0
    }

    /** No lane can step over the end of its ints. */
    predicate LanesEnd() {
      forall b | 0 <= b < |bufs| :: ElementCount(b) <= INT_LIMIT - THREADBLOCK_SIZE
    }

    /** Every block that has something to copy fits. */
    predicate Fits() {
      forall b | 0 <= b < |bufs| && bufs[b].size > 0 ::
        BlockFits(bufs[b], Sizes(bufs[..b]), out.Plus(Sizes(bufs[..b])))
    }

    /** The inputs are apart from the output. */
    ghost predicate Disjoint() {
      forall b | 0 <= b < |bufs| :: Apart(bufs[b].ptr, bufs[b].size, out, Sizes(bufs))
    }
  }

  // ---------------------------------------------------------------------------
  // Runs: steps of the lanes in any order
  // ---------------------------------------------------------------------------

  /** The element a lane turns to after element e. */
  function NextId(e: int): int {
    ToInt(e + THREADBLOCK_SIZE)
  }

  /** Where the lanes have got to, and how often each block has written each
      location. */
  datatype State = State(mem: Memory, next: seq<seq<int>>, writes: (nat, Loc) -> nat)

  datatype Step = Step(block: nat, lane: nat)

  function Lanes(): seq<int> {
    seq(THREADBLOCK_SIZE, t => t)
  }

  ghost function Start(k: Launch, orig: Memory): State {
    State(orig, seq(|k.bufs|, _ => Lanes()), (_, _) => 0)
  }

  ghost predicate Shaped(k: Launch, s: State) {
    |s.next| == |k.bufs| && forall b | 0 <= b < |k.bufs| :: |s.next[b]| == THREADBLOCK_SIZE
  }

  /** The lane is not done. */
  ghost predicate Enabled(k: Launch, s: State, a: Step) {
    && Shaped(k, s) && a.block < |k.bufs| && a.lane < THREADBLOCK_SIZE
    && s.next[a.block][a.lane] < k.ElementCount(a.block)
  }

  /** The lane copies its element and moves on. */
  ghost function Advance(k: Launch, s: State, a: Step): State
    requires Enabled(k, s, a)
  {
    var b, t := a.block, a.lane;
    var e := s.next[b][t];
    State(Apply(s.mem, k.Element(b, e)),
          s.next[b := s.next[b][t := NextId(e)]],
          (c: nat, l: Loc) => s.writes(c, l) + if c == b && In(l, k.Element(b, e).dst, k.Unit(b)) then 1 else 0)
  }

  ghost predicate Run(k: Launch, orig: Memory, states: seq<State>, steps: seq<Step>) {
    && |states| == |steps| + 1 && states[0] == Start(k, orig)
    && forall i | 0 <= i < |steps| :: Enabled(k, states[i], steps[i]) && states[i + 1] == Advance(k, states[i], steps[i])
  }

  ghost predicate AllDone(k: Launch, s: State) {
    && Shaped(k, s)
    && forall b, t | 0 <= b < |k.bufs| && 0 <= t < THREADBLOCK_SIZE :: s.next[b][t] >= k.ElementCount(b)
  }

  /** A run in which every lane of every block has come to its end. */
  ghost predicate CompleteRun(k: Launch, orig: Memory, states: seq<State>, steps: seq<Step>) {
    Run(k, orig, states, steps) && AllDone(k, states[|steps|])
  }

  /** How often the first n blocks have written l. */
  ghost function Writes(s: State, l: Loc, n: nat): nat {
    if n == 0 then 0 else Writes(s, l, n - 1) + s.writes(n - 1, l)
  }

  ghost predicate WrittenOnce(k: Launch, s: State) {
    forall l: Loc :: Writes(s, l, |k.bufs|) == if In(l, k.out, Sizes(k.bufs)) then 1 else 0
  }

  /** The kernel can come to an end, and turns memory m0 into m1 however it does. */
  ghost predicate EveryRunGives(k: Launch, m0: Memory, m1: Memory) {
    && (exists states, steps :: CompleteRun(k, m0, states, steps))
    && forall states: seq<State>, steps: seq<Step> | CompleteRun(k, m0, states, steps) ::
         forall l: Loc :: states[|steps|].mem(l) == m1(l)
  }

  /** The kernel does to memory what copying the buffers one after the other does,
      and every run writes each byte of the output once, and no other byte. */
  ghost predicate Gathers(k: Launch, t: Tensor, base: nat, orig: Memory) {
    && EveryRunGives(k, orig, Drain(orig, KernelCopies(k.bufs, t, base)))
    && forall states: seq<State>, steps: seq<Step> | CompleteRun(k, orig, states, steps) ::
         WrittenOnce(k, states[|steps|])
  }

  // ---------------------------------------------------------------------------
  // What every run keeps while no lane can wrap around
  // ---------------------------------------------------------------------------

  /** Element e of block b has been copied. */
  ghost predicate Copied(s: State, b: nat, e: int)
    requires b < |s.next| && |s.next[b]| == THREADBLOCK_SIZE && e >= 0
  {
    e < s.next[b][e % THREADBLOCK_SIZE]
  }

  /** Lanes stand at elements of their own. */
  ghost predicate Strided(k: Launch, s: State) {
    && Shaped(k, s)
    && forall b, t | 0 <= b < |k.bufs| && 0 <= t < THREADBLOCK_SIZE ::
         s.next[b][t] >= 0 && s.next[b][t] % THREADBLOCK_SIZE == t
  }

  /** Block b has written l once if l belongs to an element that has been copied. */
  ghost predicate BlockWrote(k: Launch, s: State, b: nat, l: Loc)
    requires b < |k.bufs| && Shaped(k, s)
  {
    s.writes(b, l) ==
    if In(l, k.Dst(b), k.Span(b)) && Copied(s, b, (l.addr - k.Dst(b).addr) / k.Unit(b)) then 1 else 0
  }

  ghost predicate WritesOk(k: Launch, s: State) {
    Strided(k, s) && forall b, l | 0 <= b < |k.bufs| :: BlockWrote(k, s, b, l)
  }

  lemma {:induction false} CountBytes(k: Launch, b: nat)
    requires b < |k.bufs|
    ensures k.ElementCount(b) * k.Unit(b) == k.ByteSize(b) && (k.Unit(b) == 1 || k.Unit(b) == 4)
    ensures k.ElementCount(b) > 0 <==> k.Span(b) > 0
    ensures k.ElementCount(b) > 0 ==> k.Span(b) == k.ByteSize(b)
  {}

  /** An element covers the bytes that belong to it, and no others of its block. */
  lemma {:induction false} ElementBytes(k: Launch, b: nat, e: int, l: Loc)
    requires b < |k.bufs| && 0 <= e < k.ElementCount(b)
    ensures In(l, k.Element(b, e).dst, k.Unit(b))
            <==> In(l, k.Dst(b), k.Span(b)) && (l.addr - k.Dst(b).addr) / k.Unit(b) == e
  {
    hide Launch.Dst, Launch.Span, Launch.Unit, Launch.ElementCount;
    CountBytes(k, b);
    MulGrows(e + 1, k.ElementCount(b), k.Unit(b));
    MulAdd(e, 1, k.Unit(b));
    Slot(l.addr - k.Dst(b).addr, k.Unit(b), e);
  }

  /** The numbers that divide to e. */
  lemma {:induction false} Slot(x: int, u: nat, e: nat)
    requires u == 1 || u == 4
    ensures e * u <= x < e * u + u <==> x >= 0 && x / u == e
  {}

  lemma {:induction false} Quotient(x: nat, u: nat, n: int)
    requires (u == 1 || u == 4) && x < n * u
    ensures 0 <= x / u < n
  {}

  lemma {:induction false} RemainderSmall(e: nat)
    ensures 0 <= e % THREADBLOCK_SIZE <= e
  {}

  lemma {:induction false} StartInv(k: Launch, orig: Memory)
    ensures WritesOk(k, Start(k, orig))
  {
    var s := Start(k, orig);
    forall b: nat, l | b < |k.bufs|
      ensures BlockWrote(k, s, b, l)
    {
      if In(l, k.Dst(b), k.Span(b)) {
        var e := (l.addr - k.Dst(b).addr) / k.Unit(b);
        assert e >= 0;
        RemainderSmall(e);
      }
    }
  }

  /** Elements of one lane that are less than 512 apart are the same. */
  lemma {:induction false} SameLane(e: nat, f: nat)
    requires e % THREADBLOCK_SIZE == f % THREADBLOCK_SIZE && f <= e < f + THREADBLOCK_SIZE
    ensures e == f
  {}

  lemma {:induction false} StepStrided(k: Launch, s: State, a: Step)
    requires k.LanesEnd() && Strided(k, s) && Enabled(k, s, a)
    ensures Strided(k, Advance(k, s, a)) && 0 <= s.next[a.block][a.lane]
    ensures Advance(k, s, a).next[a.block][a.lane] == s.next[a.block][a.lane] + THREADBLOCK_SIZE
  {
    var e := s.next[a.block][a.lane];
    assert NextId(e) == e + THREADBLOCK_SIZE;
    assert (e + THREADBLOCK_SIZE) % THREADBLOCK_SIZE == e % THREADBLOCK_SIZE;
  }

  /** A step copies the one element it is about. */
  lemma {:induction false} StepCopied(k: Launch, s: State, a: Step, b: nat, e: nat)
    requires k.LanesEnd() && Strided(k, s) && Enabled(k, s, a) && b < |k.bufs|
    ensures var s' := Advance(k, s, a);
            Shaped(k, s') && (Copied(s', b, e) <==> Copied(s, b, e) || (b == a.block && e == s.next[a.block][a.lane]))
    ensures s.next[a.block][a.lane] >= 0 && !Copied(s, a.block, s.next[a.block][a.lane])
  {
    var f := s.next[a.block][a.lane];
    StepStrided(k, s, a);
    if b == a.block && e % THREADBLOCK_SIZE == a.lane {
      if f <= e < f + THREADBLOCK_SIZE {
        SameLane(e, f);
      }
    }
  }

  lemma {:induction false} StepWrites(k: Launch, s: State, a: Step)
    requires k.LanesEnd() && WritesOk(k, s) && Enabled(k, s, a)
    ensures WritesOk(k, Advance(k, s, a))
  {
    var s', b, e := Advance(k, s, a), a.block, s.next[a.block][a.lane];
    StepStrided(k, s, a);
    hide Strided, Copied, Launch.ElementCount, Launch.Dst, Launch.Span, Launch.Unit, Launch.Element;
    forall c: nat, l | c < |k.bufs|
      ensures BlockWrote(k, s', c, l)
    {
      assert BlockWrote(k, s, c, l);
      StepByteWrites(k, s, a, c, l);
    }
  }

  lemma {:induction false} StepByteWrites(k: Launch, s: State, a: Step, c: nat, l: Loc)
    requires k.LanesEnd() && Strided(k, s) && Enabled(k, s, a) && c < |k.bufs| && BlockWrote(k, s, c, l)
    ensures Shaped(k, Advance(k, s, a)) && BlockWrote(k, Advance(k, s, a), c, l)
  {
    var b, e := a.block, s.next[a.block][a.lane];
    StepStrided(k, s, a);
    if c == b {
      ElementBytes(k, b, e, l);
    }
    if In(l, k.Dst(c), k.Span(c)) {
      var x := (l.addr - k.Dst(c).addr) / k.Unit(c);
      assert x >= 0;
      StepCopied(k, s, a, c, x);
    }
  }

  lemma {:induction false} RunWrites(k: Launch, orig: Memory, states: seq<State>, steps: seq<Step>, i: nat)
    requires k.LanesEnd() && Run(k, orig, states, steps) && i < |states|
    ensures WritesOk(k, states[i])
  {
    hide WritesOk, Enabled, Advance, Start, Launch.LanesEnd;
    if i == 0 {
      StartInv(k, orig);
    } else {
      RunWrites(k, orig, states, steps, i - 1);
      StepWrites(k, states[i - 1], steps[i - 1]);
    }
  }

  /** In the end block b has written its span, each byte once. */
  lemma {:induction false} BlockDone(k: Launch, s: State, b: nat, l: Loc)
    requires WritesOk(k, s) && AllDone(k, s) && b < |k.bufs|
    ensures s.writes(b, l) == if In(l, k.Dst(b), k.Span(b)) then 1 else 0
  {
    assert BlockWrote(k, s, b, l);
    if In(l, k.Dst(b), k.Span(b)) {
      CountBytes(k, b);
      var e := (l.addr - k.Dst(b).addr) / k.Unit(b);
      assert 0 <= e < k.ElementCount(b);
      assert s.next[b][e % THREADBLOCK_SIZE] >= k.ElementCount(b);
    }
  }

  // ---------------------------------------------------------------------------
  // The kernel comes to an end
  // ---------------------------------------------------------------------------

  /** How far the lanes of a block have to go. */
  function LanesLeft(count: int, lanes: seq<int>): nat {
    if lanes == [] then 0
    else
      var e := lanes[|lanes| - 1];
      LanesLeft(count, lanes[..|lanes| - 1]) + if e < count then count - e else 0
  }

  lemma {:induction false} LanesDrop(count: int, lanes: seq<int>, t: nat, e: int)
    requires t < |lanes| && lanes[t] < count && lanes[t] < e
    ensures LanesLeft(count, lanes[t := e]) < LanesLeft(count, lanes)
  {
    var n := |lanes| - 1;
    if t < n {
      LanesDrop(count, lanes[..n], t, e);
      assert lanes[t := e][..n] == lanes[..n][t := e];
    } else {
      assert lanes[t := e][..n] == lanes[..n];
    }
  }

  /** How far the lanes of the first n blocks have to go. */
  ghost function Left(k: Launch, next: seq<seq<int>>, n: nat): nat
    requires n <= |k.bufs| == |next|
  {
    if n == 0 then 0 else Left(k, next, n - 1) + LanesLeft(k.ElementCount(n - 1), next[n - 1])
  }

  lemma {:induction false} LeftDrops(k: Launch, next: seq<seq<int>>, b: nat, lanes: seq<int>, n: nat)
    requires n <= |k.bufs| == |next| && b < |k.bufs|
    requires LanesLeft(k.ElementCount(b), lanes) < LanesLeft(k.ElementCount(b), next[b])
    ensures Left(k, next[b := lanes], n) <= Left(k, next, n)
    ensures b < n ==> Left(k, next[b := lanes], n) < Left(k, next, n)
  {
    if n > 0 {
      LeftDrops(k, next, b, lanes, n - 1);
    }
  }

  /** Every run can be continued to its end. */
  lemma {:induction false} FinishRun(k: Launch, orig: Memory, states: seq<State>, steps: seq<Step>)
    returns (states': seq<State>, steps': seq<Step>)
    requires k.LanesEnd() && Run(k, orig, states, steps) && WritesOk(k, states[|steps|])
    ensures CompleteRun(k, orig, states', steps')
    decreases Left(k, states[|steps|].next, |k.bufs|)
  {
    hide WritesOk, Advance, Left, Launch.LanesEnd, Start, Launch.ElementCount;
    var s := states[|steps|];
    IsStrided(k, s);
    if b: nat, t: nat :| b < |k.bufs| && t < THREADBLOCK_SIZE && s.next[b][t] < k.ElementCount(b) {
      var a := Step(b, t);
      var s' := Advance(k, s, a);
      StepWrites(k, s, a);
      StepLess(k, s, a);
      states', steps' := FinishRun(k, orig, states + [s'], steps + [a]);
    } else {
      states', steps' := states, steps;
    }
  }

  lemma {:induction false} IsStrided(k: Launch, s: State)
    requires WritesOk(k, s)
    ensures Strided(k, s) && Shaped(k, s)
  {}

  lemma {:induction false} StepLess(k: Launch, s: State, a: Step)
    requires k.LanesEnd() && Strided(k, s) && Enabled(k, s, a)
    ensures |Advance(k, s, a).next| == |k.bufs|
    ensures Left(k, Advance(k, s, a).next, |k.bufs|) < Left(k, s.next, |k.bufs|)
  {
    hide Left;
    var b, e := a.block, s.next[a.block][a.lane];
    StepStrided(k, s, a);
    LanesDrop(k.ElementCount(b), s.next[b], a.lane, NextId(e));
    LeftDrops(k, s.next, b, s.next[b][a.lane := NextId(e)], |k.bufs|);
  }

  lemma {:induction false} CanComplete(k: Launch, orig: Memory)
    requires k.LanesEnd()
    ensures exists states, steps :: CompleteRun(k, orig, states, steps)
  {
    hide WritesOk, Launch.LanesEnd;
    StartInv(k, orig);
    var states, steps := FinishRun(k, orig, [Start(k, orig)], []);
    assert CompleteRun(k, orig, states, steps);
  }

  // ---------------------------------------------------------------------------
  // When everything fits, the outcome is that of the copies
  // ---------------------------------------------------------------------------

  /** What a block that fits looks like: plain sizes and offsets. */
  lemma {:induction false} Plain(k: Launch, b: nat)
    requires k.Fits() && b < |k.bufs|
    ensures k.Span(b) == k.ByteSize(b) == k.bufs[b].size
    ensures k.bufs[b].size > 0 ==> k.Dst(b) == k.out.Plus(Sizes(k.bufs[..b]))
    ensures Sizes(k.bufs[..b]) + k.bufs[b].size <= Sizes(k.bufs)
    ensures k.ElementCount(b) <= INT_LIMIT - THREADBLOCK_SIZE
  {
    SizesStep(k.bufs, b);
  }

  lemma {:induction false} FitsEnds(k: Launch)
    requires k.Fits()
    ensures k.LanesEnd()
  {
    forall b: nat | b < |k.bufs|
      ensures k.ElementCount(b) <= INT_LIMIT - THREADBLOCK_SIZE
    {
      Plain(k, b);
    }
  }

  /** The byte of block b at distance x from its start has its source byte if its
      element has been copied; else it is as it was. */
  ghost predicate ByteOk(k: Launch, orig: Memory, s: State, b: nat, x: nat)
    requires b < |k.bufs| && Shaped(k, s) && x < k.bufs[b].size
  {
    var l := k.out.Plus(Sizes(k.bufs[..b])).Plus(x);
    s.mem(l) == if Copied(s, b, x / k.Unit(b)) then orig(k.Src(b).Plus(x)) else orig(l)
  }

  ghost predicate MemOk(k: Launch, orig: Memory, s: State) {
    && Strided(k, s)
    && (forall b, x | 0 <= b < |k.bufs| && 0 <= x < k.bufs[b].size :: ByteOk(k, orig, s, b, x))
    && (forall l: Loc | !In(l, k.out, Sizes(k.bufs)) :: s.mem(l) == orig(l))
  }

  lemma {:induction false} StartMem(k: Launch, orig: Memory)
    ensures MemOk(k, orig, Start(k, orig))
  {
    var s := Start(k, orig);
    forall b: nat, x: nat | b < |k.bufs| && x < k.bufs[b].size
      ensures ByteOk(k, orig, s, b, x)
    {
      var e := x / k.Unit(b);
      assert e >= 0;
      RemainderSmall(e);
    }
  }

  lemma {:induction false} StepMem(k: Launch, orig: Memory, s: State, a: Step)
    requires k.Fits() && k.Disjoint() && MemOk(k, orig, s) && Enabled(k, s, a)
    ensures MemOk(k, orig, Advance(k, s, a))
  {
    var s', b, e := Advance(k, s, a), a.block, s.next[a.block][a.lane];
    FitsEnds(k);
    StepStrided(k, s, a);
    hide Strided, Copied;
    forall c: nat, x: nat | c < |k.bufs| && x < k.bufs[c].size
      ensures ByteOk(k, orig, s', c, x)
    {
      assert ByteOk(k, orig, s, c, x);
      StepByte(k, orig, s, a, c, x);
    }
    forall l: Loc | !In(l, k.out, Sizes(k.bufs))
      ensures s'.mem(l) == orig(l)
    {
      ElementInside(k, b, e, l);
    }
  }

  lemma {:induction false} ElementInside(k: Launch, b: nat, e: int, l: Loc)
    requires k.Fits() && b < |k.bufs| && 0 <= e < k.ElementCount(b)
    ensures In(l, k.Element(b, e).dst, k.Unit(b)) ==>
              In(l, k.out, Sizes(k.bufs)) && In(l, k.out.Plus(Sizes(k.bufs[..b])), k.bufs[b].size)
  {
    hide Launch.Dst, Launch.Span, Launch.Unit, Launch.ElementCount, Launch.Element;
    ElementBytes(k, b, e, l);
    CountBytes(k, b);
    Plain(k, b);
  }

  lemma {:induction false} StepByte(k: Launch, orig: Memory, s: State, a: Step, c: nat, x: nat)
    requires k.Fits() && k.LanesEnd() && k.Disjoint() && MemOk(k, orig, s) && Enabled(k, s, a)
    requires c < |k.bufs| && x < k.bufs[c].size && ByteOk(k, orig, s, c, x)
    ensures Shaped(k, Advance(k, s, a)) && ByteOk(k, orig, Advance(k, s, a), c, x)
  {
    hide Copied, Strided, Launch.Fits, Launch.Disjoint, Launch.Unit, Launch.LanesEnd;
    var b, e := a.block, s.next[a.block][a.lane];
    var l := k.out.Plus(Sizes(k.bufs[..c])).Plus(x);
    ElementOf(k, b, 0);
    ElementOf(k, c, x);
    StepCopied(k, s, a, c, x / k.Unit(c));
    if b == c {
      OwnElement(k, b, e, x);
    } else {
      ElementInside(k, b, e, l);
      BlocksApart(k, b, c, l);
    }
  }

  /** Bytes are counted in whole elements. */
  lemma {:induction false} ElementOf(k: Launch, c: nat, x: nat)
    requires c < |k.bufs|
    ensures k.Unit(c) > 0 && 0 <= x / k.Unit(c)
  {
    CountBytes(k, c);
  }

  /** Element e of a block writes the block's byte x if it holds it, and with its source byte. */
  lemma {:induction false} OwnElement(k: Launch, b: nat, e: nat, x: nat)
    requires k.Fits() && k.Disjoint() && b < |k.bufs| && x < k.bufs[b].size && e < k.ElementCount(b)
    ensures var l, el := k.out.Plus(Sizes(k.bufs[..b])).Plus(x), k.Element(b, e);
            && k.Unit(b) > 0
            && (In(l, el.dst, k.Unit(b)) <==> x / k.Unit(b) == e)
            && (x / k.Unit(b) == e ==>
                  Shift(l, el.dst, el.src) == k.Src(b).Plus(x) && !In(k.Src(b).Plus(x), k.out, Sizes(k.bufs)))
  {
    hide Launch.Unit;
    var l, el := k.out.Plus(Sizes(k.bufs[..b])).Plus(x), k.Element(b, e);
    ElementOf(k, b, x);
    Plain(k, b);
    ElementBytes(k, b, e, l);
    if x / k.Unit(b) == e {
      assert In(k.Src(b).Plus(x), k.bufs[b].ptr, k.bufs[b].size);
    }
  }

  lemma {:induction false} BlocksApart(k: Launch, b: nat, c: nat, l: Loc)
    requires b < |k.bufs| && c < |k.bufs| && b != c && In(l, k.out.Plus(Sizes(k.bufs[..c])), k.bufs[c].size)
    ensures !In(l, k.out.Plus(Sizes(k.bufs[..b])), k.bufs[b].size)
  {
    if b < c {
      SizesOrder(k.bufs, b, c);
    } else {
      SizesOrder(k.bufs, c, b);
    }
  }

  lemma {:induction false} RunMem(k: Launch, orig: Memory, states: seq<State>, steps: seq<Step>, i: nat)
    requires k.Fits() && k.Disjoint() && Run(k, orig, states, steps) && i < |states|
    ensures MemOk(k, orig, states[i])
  {
    hide MemOk, Enabled, Advance, Start, Launch.Fits, Launch.Disjoint;
    if i == 0 {
      StartMem(k, orig);
    } else {
      RunMem(k, orig, states, steps, i - 1);
      StepMem(k, orig, states[i - 1], steps[i - 1]);
    }
  }

  /** The first n blocks have written their part of the output once, and nothing else. */
  lemma {:induction false} OnceUpTo(k: Launch, s: State, l: Loc, n: nat)
    requires k.Fits() && WritesOk(k, s) && AllDone(k, s) && n <= |k.bufs|
    ensures Writes(s, l, n) == if In(l, k.out, Sizes(k.bufs[..n])) then 1 else 0
  {
    hide WritesOk, AllDone, Launch.Fits, Launch.Dst, Launch.Span;
    if n > 0 {
      OnceUpTo(k, s, l, n - 1);
      BlockDone(k, s, n - 1, l);
      Plain(k, n - 1);
      SizesStep(k.bufs, n - 1);
    } else {
      assert k.bufs[..0] == [];
    }
  }

  /** The block whose part of the output l lies in. */
  lemma {:induction false} BlockOf(bufs: seq<Chunk>, out: Loc, l: Loc) returns (b: nat)
    requires In(l, out, Sizes(bufs))
    ensures b < |bufs| && In(l, out.Plus(Sizes(bufs[..b])), bufs[b].size)
  {
    var p := bufs[..|bufs| - 1];
    if In(l, out, Sizes(p)) {
      b := BlockOf(p, out, l);
      assert p[..b] == bufs[..b];
    } else {
      b := |bufs| - 1;
    }
  }

  /** m has the byte of block b at distance x from its start. */
  ghost predicate ByteThere(k: Launch, orig: Memory, m: Memory, b: nat, x: nat)
    requires b < |k.bufs|
  {
    m(k.out.Plus(Sizes(k.bufs[..b])).Plus(x)) == orig(k.bufs[b].ptr.Plus(x))
  }

  ghost predicate CopiedUpTo(k: Launch, orig: Memory, m: Memory, n: nat)
    requires n <= |k.bufs|
  {
    && (forall b, x | 0 <= b < n && 0 <= x < k.bufs[b].size :: ByteThere(k, orig, m, b, x))
    && (forall l: Loc | !In(l, k.out, Sizes(k.bufs[..n])) :: m(l) == orig(l))
  }

  lemma {:induction false} CopyNextBuffer(k: Launch, orig: Memory, m0: Memory, n: nat)
    requires n < |k.bufs| && k.Disjoint() && CopiedUpTo(k, orig, m0, n)
    ensures CopiedUpTo(k, orig, Apply(m0, Copy(k.bufs[n].ptr, k.out.Plus(Sizes(k.bufs[..n])), k.bufs[n].size)), n + 1)
  {
    var c := Copy(k.bufs[n].ptr, k.out.Plus(Sizes(k.bufs[..n])), k.bufs[n].size);
    var m := Apply(m0, c);
    SizesStep(k.bufs, n);
    forall b, x | 0 <= b < n + 1 && 0 <= x < k.bufs[b].size
      ensures ByteThere(k, orig, m, b, x)
    {
      var l := k.out.Plus(Sizes(k.bufs[..b])).Plus(x);
      if b == n {
        var from := k.bufs[n].ptr.Plus(x);
        assert Shift(l, c.dst, c.src) == from && In(from, k.bufs[n].ptr, k.bufs[n].size);
        assert !In(from, k.out, Sizes(k.bufs));
        assert In(l, c.dst, c.n) && m(l) == m0(from) && !In(from, k.out, Sizes(k.bufs[..n]));
      } else {
        assert ByteThere(k, orig, m0, b, x);
        SizesOrder(k.bufs, b, n);
        assert !In(l, c.dst, c.n);
      }
    }
    forall l: Loc | !In(l, k.out, Sizes(k.bufs[..n + 1]))
      ensures m(l) == orig(l)
    {
      assert !In(l, c.dst, c.n) && !In(l, k.out, Sizes(k.bufs[..n]));
    }
  }

  /** Copying the buffers one after the other gives every output byte its source
      byte, and changes nothing else. */
  lemma {:induction false} DirectCopies(k: Launch, t: Tensor, base: nat, orig: Memory, n: nat)
    requires n <= |k.bufs| && k.out == t.ptr.Plus(base) && k.Disjoint()
    ensures CopiedUpTo(k, orig, Drain(orig, KernelCopies(k.bufs, t, base)[..n]), n)
  {
    hide CopiedUpTo, Launch.Disjoint, Sizes;
    var cs := KernelCopies(k.bufs, t, base);
    if n > 0 {
      DirectCopies(k, t, base, orig, n - 1);
      assert cs[..n] == cs[..n - 1] + [cs[n - 1]];
      DrainAppend(orig, cs[..n - 1], cs[n - 1]);
      CopyNextBuffer(k, orig, Drain(orig, cs[..n - 1]), n - 1);
    } else {
      NothingCopied(k, orig);
      assert cs[..0] == [];
    }
  }

  lemma {:induction false} NothingCopied(k: Launch, orig: Memory)
    ensures CopiedUpTo(k, orig, orig, 0)
  {}

  /** Every schedule of all lanes of all blocks ends with the memory that copying
      the buffers one after the other gives. */
  lemma {:induction false} KernelIsCopies(k: Launch, t: Tensor, base: nat, orig: Memory, states: seq<State>,
                                          steps: seq<Step>)
    requires k.Fits() && k.Disjoint() && k.out == t.ptr.Plus(base) && CompleteRun(k, orig, states, steps)
    ensures WrittenOnce(k, states[|steps|])
    ensures forall l: Loc :: states[|steps|].mem(l) == Drain(orig, KernelCopies(k.bufs, t, base))(l)
  {
    var s, cs := states[|steps|], KernelCopies(k.bufs, t, base);
    FitsEnds(k);
    RunWrites(k, orig, states, steps, |steps|);
    RunMem(k, orig, states, steps, |steps|);
    DirectCopies(k, t, base, orig, |k.bufs|);
    assert cs[..|k.bufs|] == cs && k.bufs[..|k.bufs|] == k.bufs;
    hide WritesOk, AllDone, Launch.Fits, Launch.Disjoint, Run, KernelCopies;
    forall l: Loc
      ensures s.mem(l) == Drain(orig, cs)(l)
      ensures Writes(s, l, |k.bufs|) == if In(l, k.out, Sizes(k.bufs)) then 1 else 0
    {
      OnceUpTo(k, s, l, |k.bufs|);
      if In(l, k.out, Sizes(k.bufs)) {
        ByteArrives(k, orig, s, Drain(orig, cs), l);
      }
    }
  }

  lemma {:induction false} ByteArrives(k: Launch, orig: Memory, s: State, m: Memory, l: Loc)
    requires k.Fits() && MemOk(k, orig, s) && AllDone(k, s) && CopiedUpTo(k, orig, m, |k.bufs|)
    requires In(l, k.out, Sizes(k.bufs))
    ensures s.mem(l) == m(l)
  {
    hide Launch.Fits, Launch.Unit, Launch.ElementCount, Launch.Dst, Launch.ByteSize, Launch.Span;
    var b := BlockOf(k.bufs, k.out, l);
    var x := l.addr - k.out.addr - Sizes(k.bufs[..b]);
    assert l == k.out.Plus(Sizes(k.bufs[..b])).Plus(x);
    assert ByteOk(k, orig, s, b, x);
    assert ByteThere(k, orig, m, b, x);
    Plain(k, b);
    CountBytes(k, b);
    Quotient(x, k.Unit(b), k.ElementCount(b));
    var e := x / k.Unit(b);
    assert s.next[b][e % THREADBLOCK_SIZE] >= k.ElementCount(b);
  }

  lemma {:induction false} AllRunsGive(k: Launch, t: Tensor, base: nat, orig: Memory)
    requires k.Fits() && k.Disjoint() && k.out == t.ptr.Plus(base)
    ensures EveryRunGives(k, orig, Drain(orig, KernelCopies(k.bufs, t, base)))
  {
    hide Launch.Fits, Launch.Disjoint, Enabled, AllDone, WrittenOnce;
    FitsEnds(k);
    CanComplete(k, orig);
    forall states: seq<State>, steps: seq<Step> | CompleteRun(k, orig, states, steps)
      ensures forall l: Loc :: states[|steps|].mem(l) == Drain(orig, KernelCopies(k.bufs, t, base))(l)
    {
      KernelIsCopies(k, t, base, orig, states, steps);
    }
  }

  /** The buffers of a pending window are apart from the part of the tensor they go to. */
  lemma {:induction false} LaunchDisjoint(v: View, orig: Memory, obls: seq<Obligation>, owned: set<nat>,
                                          bufs: seq<Chunk>, obs: seq<Obligation>, base: nat, t: Tensor, count: nat)
    requires v.Ok(orig, obls, owned) && Window(bufs, obs, base, t, v.r, count)
    ensures Launch(bufs, t.ptr.Plus(base)).Disjoint()
  {}

  /** What a kernel that is given a table of offsets is asked to copy. */
  function KernelArguments(bufs: seq<Chunk>, offsets: seq<nat>, t: Tensor, base: nat): (cs: seq<Copy>)
    requires |offsets| == |bufs| && forall j | 0 <= j < |bufs| :: offsets[j] == Sizes(bufs[..j])
    ensures cs == KernelCopies(bufs, t, base)
  {
    seq(|bufs|, i requires 0 <= i < |bufs| => Copy(bufs[i].ptr, t.ptr.Plus(base).Plus(offsets[i]), bufs[i].size))
  }

  // ---------------------------------------------------------------------------
  // What becomes of the windows of a gather
  // ---------------------------------------------------------------------------

  /** A chunk that is left to the kernel, when kernels are used. */
  predicate KernelChunk(c: Chunk, t: Tensor): (kernel: bool)
    ensures kernel <==>
              t.ptr.space.Type().Gpu? && match c.ptr.space.Type()
                                         case Cpu => false
                                         case CpuPinned => true
                                         case Gpu => c.ptr.space.TypeId() == t.ptr.space.TypeId()
  {
    && c.ptr.space.Type() != Cpu && t.ptr.space.Type() == Gpu
    && (c.ptr.space.Type() != Gpu || c.ptr.space.TypeId() == t.ptr.space.TypeId())
  }

  /** A window, unless the chunk at offset would not continue it, in which case it has been
      flushed. */
  function Unbroken(w: Win, offset: nat): Win {
    if w.size > 0 && w.base + w.size != offset then Win([], 0, 0, []) else w
  }

  /** What is pending for the kernel after the chunks. */
  function KernelWindow(cs: seq<Chunk>, t: Tensor): Win {
    if cs == [] then Win([], 0, 0, [])
    else
      var before, c := cs[..|cs| - 1], cs[|cs| - 1];
      var w := Unbroken(KernelWindow(before, t), Sizes(before));
      if KernelChunk(c, t) && Sizes(before) + c.size <= t.size then w.Put(c, Sizes(before)) else w
  }

  /** Every window with enough buffers for a kernel to be launched fits its ints. */
  predicate KernelFits(cs: seq<Chunk>, t: Tensor, threshold: nat) {
    threshold > 0 ==> forall n | 0 <= n <= |cs| :: WindowFits(KernelWindow(cs[..n], t), t, threshold)
  }

  predicate WindowFits(w: Win, t: Tensor, threshold: nat) {
    threshold <= |w.bufs| ==> Launch(w.bufs, t.ptr.Plus(w.base)).Fits()
  }

  /** It is enough that the tensor is no larger than 2^31 - 512 bytes. */
  lemma {:induction false} SmallTensorsFit(cs: seq<Chunk>, t: Tensor, threshold: nat)
    requires t.size <= INT_LIMIT - THREADBLOCK_SIZE
    ensures KernelFits(cs, t, threshold)
  {
    forall n | 0 <= n <= |cs|
      ensures WindowFits(KernelWindow(cs[..n], t), t, threshold)
    {
      var w := KernelWindow(cs[..n], t);
      WindowInside(cs[..n], t);
      forall b: nat | b < |w.bufs|
        ensures Sizes(w.bufs[..b]) + w.bufs[b].size <= t.size
      {
        SizesStep(w.bufs, b);
      }
    }
  }

  lemma {:induction false} WindowInside(cs: seq<Chunk>, t: Tensor)
    ensures var w := KernelWindow(cs, t);
            w.size == Sizes(w.bufs) && (w.size > 0 ==> w.base + w.size <= t.size)
  {
    if cs != [] {
      var before, c := cs[..|cs| - 1], cs[|cs| - 1];
      WindowInside(before, t);
      var w := Unbroken(KernelWindow(before, t), Sizes(before));
      assert (w.bufs + [c])[..|w.bufs|] == w.bufs;
    }
  }

  /** The kernel window is the one that the chunks so far lead to, flushed if they have
      broken it, and fits if it can be launched and all such windows are to fit. */
  ghost predicate KernelReady(k: Win, done: seq<Chunk>, t: Tensor, threshold: nat, fits: bool) {
    && (fits ==> WindowFits(k, t, threshold))
    && if threshold == 0 then k.bufs == []
       else k == KernelWindow(done, t) || k == Unbroken(KernelWindow(done, t), Sizes(done))
  }

  /** One more chunk, for the kernel or not. */
  lemma {:induction false} KernelReadyStep(k: Win, done: seq<Chunk>, t: Tensor, threshold: nat, all: seq<Chunk>,
                                           input: Chunk, fits: bool)
    requires KernelReady(k, done, t, threshold, fits) && k.obs == [] && k.EndsAt(Sizes(done))
    requires |done| < |all| && done == all[..|done|] && input == all[|done|] && (fits ==> KernelFits(all, t, threshold))
    ensures var toKernel := threshold > 0 && KernelChunk(input, t) && Sizes(done) + input.size <= t.size;
            KernelReady(if toKernel then k.Put(input, Sizes(done)) else k, done + [input], t, threshold, fits)
  {
    hide KernelChunk, Sizes, Launch.Fits;
    assert (done + [input])[..|done|] == done && all[..|done| + 1] == done + [input];
    if threshold > 0 && fits {
      assert WindowFits(KernelWindow(all[..|done| + 1], t), t, threshold);
    }
  }

  /** A window that the next chunk would not continue is empty once it is flushed. */
  lemma {:induction false} KernelReadyFlushed(k: Win, done: seq<Chunk>, t: Tensor, threshold: nat, fits: bool)
    requires KernelReady(k, done, t, threshold, fits) && k.size > 0 && k.base + k.size != Sizes(done)
    ensures KernelReady(Win([], 0, 0, []), done, t, threshold, fits)
  {
    hide Sizes;
    assert threshold > 0 ==> Unbroken(KernelWindow(done, t), Sizes(done)) == Win([], 0, 0, []);
  }

  // ---------------------------------------------------------------------------
  // When something does not fit
  // ---------------------------------------------------------------------------

  /** Whatever they do, lanes keep their remainder, and an int is below 2^31. */
  ghost predicate InStep(k: Launch, s: State) {
    && Shaped(k, s)
    && forall b, t | 0 <= b < |k.bufs| && 0 <= t < THREADBLOCK_SIZE ::
         s.next[b][t] < INT_LIMIT && s.next[b][t] % THREADBLOCK_SIZE == t
  }

  lemma {:induction false} NextRemainder(e: int)
    ensures NextId(e) < INT_LIMIT && NextId(e) % THREADBLOCK_SIZE == e % THREADBLOCK_SIZE
  {
    var q := (e + THREADBLOCK_SIZE) / (2 * INT_LIMIT);
    var y := (e + THREADBLOCK_SIZE) % (2 * INT_LIMIT);
    assert e + THREADBLOCK_SIZE == 2 * INT_LIMIT * q + y;
  }

  lemma {:induction false} RunInStep(k: Launch, orig: Memory, states: seq<State>, steps: seq<Step>, i: nat)
    requires Run(k, orig, states, steps) && i < |states|
    ensures InStep(k, states[i])
  {
    if i > 0 {
      RunInStep(k, orig, states, steps, i - 1);
      var s, a := states[i - 1], steps[i - 1];
      NextRemainder(s.next[a.block][a.lane]);
    }
  }

  /** A block with more than 2^31 - 512 elements never ends: the lane of its last
      element has no int to stop at. */
  lemma {:induction false} NeverDone(k: Launch, orig: Memory, states: seq<State>, steps: seq<Step>, b: nat)
    requires b < |k.bufs| && k.ElementCount(b) > INT_LIMIT - THREADBLOCK_SIZE && Run(k, orig, states, steps)
    ensures !AllDone(k, states[|steps|])
  {
    hide Launch.ElementCount;
    RunInStep(k, orig, states, steps, |steps|);
    var last := k.ElementCount(b) - 1;
    var t := last % THREADBLOCK_SIZE;
    var e := states[|steps|].next[b][t];
    if e > last {
      NoneBetween(last, e);
    }
  }

  lemma {:induction false} NoneBetween(last: int, e: int)
    requires e % THREADBLOCK_SIZE == last % THREADBLOCK_SIZE && last < e
    ensures e >= last + THREADBLOCK_SIZE
  {}

  /** How often block b has written the m bytes at p. */
  ghost function BlockTotal(s: State, b: nat, p: Loc, m: nat): nat {
    if m == 0 then 0 else BlockTotal(s, b, p, m - 1) + s.writes(b, p.Plus(m - 1))
  }

  /** How often the first n blocks have written the m bytes at p. */
  ghost function WriteTotal(s: State, p: Loc, m: nat, n: nat): nat {
    if m == 0 then 0 else WriteTotal(s, p, m - 1, n) + Writes(s, p.Plus(m - 1), n)
  }

  ghost function SpanTotal(k: Launch, n: nat): nat
    requires n <= |k.bufs|
  {
    if n == 0 then 0 else SpanTotal(k, n - 1) + k.Span(n - 1)
  }

  lemma {:induction false} TotalSplits(s: State, p: Loc, m: nat, n: nat)
    requires n > 0
    ensures WriteTotal(s, p, m, n) == WriteTotal(s, p, m, n - 1) + BlockTotal(s, n - 1, p, m)
  {
    if m > 0 {
      TotalSplits(s, p, m - 1, n);
    }
  }

  lemma {:induction false} NoBlocks(s: State, p: Loc, m: nat)
    ensures WriteTotal(s, p, m, 0) == 0
  {
    if m > 0 {
      NoBlocks(s, p, m - 1);
    }
  }

  function Clamp(x: int, top: nat): nat {
    if x < 0 then 0 else if x < top then x else top
  }

  /** A block writes no more bytes than its span has. */
  lemma {:induction false} BlockTotalBound(k: Launch, s: State, b: nat, m: nat)
    requires WritesOk(k, s) && AllDone(k, s) && b < |k.bufs|
    ensures BlockTotal(s, b, k.out, m) <= Clamp(m - (k.Dst(b).addr - k.out.addr), k.Span(b))
  {
    hide WritesOk, AllDone, Launch.Span;
    if m > 0 {
      BlockTotalBound(k, s, b, m - 1);
      BlockDone(k, s, b, k.out.Plus(m - 1));
    }
  }

  lemma {:induction false} TotalBound(k: Launch, s: State, m: nat, n: nat)
    requires WritesOk(k, s) && AllDone(k, s) && n <= |k.bufs|
    ensures WriteTotal(s, k.out, m, n) <= SpanTotal(k, n)
  {
    hide WritesOk, AllDone, Launch.Span, Launch.Dst;
    if n == 0 {
      NoBlocks(s, k.out, m);
    } else {
      TotalBound(k, s, m, n - 1);
      TotalSplits(s, k.out, m, n);
      BlockTotalBound(k, s, n - 1, m);
    }
  }

  /** Output bytes that are written once each add up to their number. */
  lemma {:induction false} OnceTotal(k: Launch, s: State, m: nat)
    requires WrittenOnce(k, s) && m <= Sizes(k.bufs)
    ensures WriteTotal(s, k.out, m, |k.bufs|) == m
  {
    if m > 0 {
      OnceTotal(k, s, m - 1);
      assert In(k.out.Plus(m - 1), k.out, Sizes(k.bufs));
    }
  }

  /** A size that does not fit an int makes its block copy less than it has. */
  lemma {:induction false} SpanSmaller(k: Launch, n: nat)
    requires n <= |k.bufs|
    ensures SpanTotal(k, n) <= Sizes(k.bufs[..n])
    ensures (exists b | 0 <= b < n :: k.bufs[b].size >= INT_LIMIT) ==> SpanTotal(k, n) < Sizes(k.bufs[..n])
  {
    if n > 0 {
      SpanSmaller(k, n - 1);
      SizesStep(k.bufs, n - 1);
      SmallerInt(k.bufs[n - 1].size);
    }
  }

  lemma {:induction false} SmallerInt(n: nat)
    ensures ToInt(n) <= n && (n >= INT_LIMIT ==> ToInt(n) < n)
  {}

  lemma {:induction false} OversizeLosesBytes(k: Launch, orig: Memory, states: seq<State>, steps: seq<Step>, b: nat)
    requires k.LanesEnd() && b < |k.bufs| && k.bufs[b].size >= INT_LIMIT && CompleteRun(k, orig, states, steps)
    ensures !WrittenOnce(k, states[|steps|])
  {
    hide WritesOk, AllDone, Launch.LanesEnd, WrittenOnce, Enabled, Advance;
    var s, total := states[|steps|], Sizes(k.bufs);
    assert k.bufs[..|k.bufs|] == k.bufs;
    RunWrites(k, orig, states, steps, |steps|);
    if WrittenOnce(k, s) {
      OnceTotal(k, s, total);
      TotalBound(k, s, total, |k.bufs|);
      SpanSmaller(k, |k.bufs|);
    }
  }

  /** Somewhere before an offset of 2^32 a block with bytes has one of at least 2^31. */
  lemma {:induction false} Crossing(k: Launch, b: nat) returns (c: nat)
    requires 0 < b <= |k.bufs| && Sizes(k.bufs[..b]) >= 2 * INT_LIMIT
    requires forall i | 0 <= i < |k.bufs| :: k.bufs[i].size < INT_LIMIT
    ensures c < b && k.bufs[c].size > 0 && INT_LIMIT <= Sizes(k.bufs[..c]) < 2 * INT_LIMIT
  {
    assert k.bufs[..0] == [];
    SizesStep(k.bufs, b - 1);
    c := b - 1;
    if Sizes(k.bufs[..b - 1]) >= 2 * INT_LIMIT {
      c := Crossing(k, b - 1);
    }
  }

  lemma {:induction false} WritesAtLeast(s: State, l: Loc, n: nat, b: nat)
    requires b < n
    ensures Writes(s, l, n) >= s.writes(b, l)
  {
    if b < n - 1 {
      WritesAtLeast(s, l, n - 1, b);
    }
  }

  /** An offset of 2^31 or more makes some block write before the output. */
  lemma {:induction false} FarBlockMisses(k: Launch, orig: Memory, states: seq<State>, steps: seq<Step>, b: nat)
    requires k.LanesEnd() && CompleteRun(k, orig, states, steps)
    requires forall i | 0 <= i < |k.bufs| :: k.bufs[i].size < INT_LIMIT
    requires b < |k.bufs| && k.bufs[b].size > 0 && Sizes(k.bufs[..b]) >= INT_LIMIT
    ensures !WrittenOnce(k, states[|steps|])
  {
    hide WritesOk, AllDone, Launch.LanesEnd, Enabled, Advance, Writes;
    assert k.bufs[..0] == [];
    var s, c := states[|steps|], b;
    if Sizes(k.bufs[..b]) >= 2 * INT_LIMIT {
      c := Crossing(k, b);
    }
    var l := k.Dst(c);
    assert l.addr < k.out.addr && k.Span(c) == k.bufs[c].size;
    RunWrites(k, orig, states, steps, |steps|);
    BlockDone(k, s, c, l);
    WritesAtLeast(s, l, |k.bufs|, c);
    assert !In(l, k.out, Sizes(k.bufs));
  }

  /** Offsets, sizes and element counts that fit are all that is needed. */
  lemma {:induction false} NothingElse(k: Launch)
    requires k.LanesEnd() && forall b | 0 <= b < |k.bufs| :: k.bufs[b].size < INT_LIMIT
    requires forall b | 0 <= b < |k.bufs| && k.bufs[b].size > 0 :: Sizes(k.bufs[..b]) < INT_LIMIT
    ensures k.Fits()
  {
    forall b: nat | b < |k.bufs| && k.bufs[b].size > 0
      ensures BlockFits(k.bufs[b], Sizes(k.bufs[..b]), k.out.Plus(Sizes(k.bufs[..b])))
    {
      assert k.ElementCount(b) <= INT_LIMIT - THREADBLOCK_SIZE;
      assert k.ByteSize(b) == k.bufs[b].size && k.Dst(b) == k.out.Plus(Sizes(k.bufs[..b]));
    }
  }

  /** The kernel does what the copies would do exactly when every block that has
      something to copy fits. */
  lemma {:induction false} GathersExactlyWhen(k: Launch, t: Tensor, base: nat, orig: Memory)
    requires k.Disjoint() && k.out == t.ptr.Plus(base)
    ensures Gathers(k, t, base, orig) <==> k.Fits()
  {
    hide Launch.LanesEnd, Launch.Fits, Launch.Disjoint, Enabled, AllDone, WrittenOnce, Launch.ElementCount;
    if k.Fits() {
      AllRunsGive(k, t, base, orig);
      forall states: seq<State>, steps: seq<Step> | CompleteRun(k, orig, states, steps)
        ensures WrittenOnce(k, states[|steps|])
      {
        KernelIsCopies(k, t, base, orig, states, steps);
      }
    }
    if Gathers(k, t, base, orig) {
      var states, steps :| CompleteRun(k, orig, states, steps);
      GatheringFits(k, orig, states, steps);
    }
  }

  /** A single buffer: in words up to the last one below 2^31 bytes, but in bytes only as
      far as the 512 lanes can step. */
  lemma {:induction false} SingleBlock(c: Chunk, t: Tensor, base: nat, orig: Memory)
    requires Apart(c.ptr, c.size, t.ptr.Plus(base), c.size)
    ensures Gathers(Launch([c], t.ptr.Plus(base)), t, base, orig)
            <==> c.size <= if c.size % 4 == c.ptr.addr % 4 == (t.ptr.addr + base) % 4 == 0 then 0x7FFF_FFFC else 0x7FFF_FE00
  {
    var k := Launch([c], t.ptr.Plus(base));
    assert k.bufs[..0] == [] && Sizes(k.bufs[..0]) == 0;
    SizesStep(k.bufs, 0);
    assert k.bufs[..1] == k.bufs;
    GathersExactlyWhen(k, t, base, orig);
  }

  lemma {:induction false} GatheringFits(k: Launch, orig: Memory, states: seq<State>, steps: seq<Step>)
    requires CompleteRun(k, orig, states, steps) && WrittenOnce(k, states[|steps|])
    ensures k.Fits()
  {
    hide Launch.Fits, WrittenOnce, Launch.ElementCount;
    forall b: nat | b < |k.bufs|
      ensures k.ElementCount(b) <= INT_LIMIT - THREADBLOCK_SIZE
    {
      if k.ElementCount(b) > INT_LIMIT - THREADBLOCK_SIZE {
        NeverDone(k, orig, states, steps, b);
      }
    }
    forall b: nat | b < |k.bufs|
      ensures k.bufs[b].size < INT_LIMIT
    {
      if k.bufs[b].size >= INT_LIMIT {
        OversizeLosesBytes(k, orig, states, steps, b);
      }
    }
    forall b: nat | b < |k.bufs| && k.bufs[b].size > 0
      ensures Sizes(k.bufs[..b]) < INT_LIMIT
    {
      if Sizes(k.bufs[..b]) >= INT_LIMIT {
        FarBlockMisses(k, orig, states, steps, b);
      }
    }
    NothingElse(k);
  }

  // ---------------------------------------------------------------------------
  // Inputs for which the kernel goes wrong
  // ---------------------------------------------------------------------------

  /** 1 GiB, 1 GiB and 4 bytes: the third block writes 2^31 bytes before the output,
      and its own part of the output is never written. */
  lemma {:induction false} FarBlock(p: Loc, q: Loc, r: Loc, out: Loc, orig: Memory)
    ensures var k := Launch([Chunk(p, 0x4000_0000, 0, 0), Chunk(q, 0x4000_0000, 1, 1), Chunk(r, 4, 2, 2)], out);
            && (exists states, steps :: CompleteRun(k, orig, states, steps))
            && forall states: seq<State>, steps: seq<Step> | CompleteRun(k, orig, states, steps) ::
                 && Writes(states[|steps|], out.Plus(-0x8000_0000), 3) == 1
                 && Writes(states[|steps|], out.Plus(0x8000_0000), 3) == 0
  {
    var k := Launch([Chunk(p, 0x4000_0000, 0, 0), Chunk(q, 0x4000_0000, 1, 1), Chunk(r, 4, 2, 2)], out);
    var bs := k.bufs;
    SizesStep(bs, 0);
    SizesStep(bs, 1);
    assert bs[..0] == [];
    assert Sizes(bs[..1]) == 0x4000_0000 && Sizes(bs[..2]) == 0x8000_0000;
    assert k.LanesEnd();
    CanComplete(k, orig);
    forall states: seq<State>, steps: seq<Step> | CompleteRun(k, orig, states, steps)
      ensures Writes(states[|steps|], out.Plus(-0x8000_0000), 3) == 1
      ensures Writes(states[|steps|], out.Plus(0x8000_0000), 3) == 0
    {
      var s: State := states[|steps|];
      RunWrites(k, orig, states, steps, |steps|);
      forall b: nat, l: Loc | b < 3
        ensures s.writes(b, l) == if In(l, k.Dst(b), k.Span(b)) then 1 else 0
      {
        BlockDone(k, s, b, l);
      }
      assert Writes(s, out.Plus(-0x8000_0000), 3)
          == s.writes(0, out.Plus(-0x8000_0000)) + s.writes(1, out.Plus(-0x8000_0000)) + s.writes(2, out.Plus(-0x8000_0000))
      by { ThreeWrites(s, out.Plus(-0x8000_0000)); }
      ThreeWrites(s, out.Plus(0x8000_0000));
    }
  }

  lemma {:induction false} ThreeWrites(s: State, l: Loc)
    ensures Writes(s, l, 3) == s.writes(0, l) + s.writes(1, l) + s.writes(2, l)
  {
    assert Writes(s, l, 1) == s.writes(0, l);
    assert Writes(s, l, 2) == Writes(s, l, 1) + s.writes(1, l);
  }

  /** A single buffer of 2 GiB: no lane has anything to do, and nothing is copied. */
  lemma {:induction false} HugeBlock(p: Loc, out: Loc, orig: Memory, states: seq<State>, steps: seq<Step>)
    requires Run(Launch([Chunk(p, 0x8000_0000, 0, 0)], out), orig, states, steps)
    ensures steps == [] && AllDone(Launch([Chunk(p, 0x8000_0000, 0, 0)], out), states[0]) && states[0].mem == orig
  {
    var k := Launch([Chunk(p, 0x8000_0000, 0, 0)], out);
    CountBytes(k, 0);
    assert k.ElementCount(0) <= 0;
    if steps != [] {
      assert false;
    }
  }

  /** The first n steps of one lane. */
  lemma {:induction false} LaneRun(k: Launch, orig: Memory, b: nat, t: nat, n: nat)
    returns (states: seq<State>, steps: seq<Step>)
    requires b < |k.bufs| && t < THREADBLOCK_SIZE
    requires n > 0 ==> t + THREADBLOCK_SIZE * (n - 1) < k.ElementCount(b)
    ensures Run(k, orig, states, steps) && Shaped(k, states[|steps|])
    ensures states[|steps|].next[b][t] == ToInt(t + THREADBLOCK_SIZE * n)
  {
    hide Launch.Element;
    if n == 0 {
      states, steps := [Start(k, orig)], [];
    } else {
      states, steps := LaneRun(k, orig, b, t, n - 1);
      var a := Step(b, t);
      assert ToInt(t + THREADBLOCK_SIZE * (n - 1)) == t + THREADBLOCK_SIZE * (n - 1);
      states, steps := states + [Advance(k, states[|steps|], a)], steps + [a];
    }
  }

  /** A lane that has stepped over the end of its ints writes before the output. */
  lemma {:induction false} WrappedStep(k: Launch, orig: Memory, states: seq<State>, steps: seq<Step>, e: int)
    returns (states': seq<State>, steps': seq<Step>)
    requires k.bufs != [] && Run(k, orig, states, steps) && Enabled(k, states[|steps|], Step(0, 510))
    requires states[|steps|].next[0][510] == e && k.Unit(0) == 1
    ensures Run(k, orig, states', steps') && Writes(states'[|steps'|], k.Dst(0).Plus(e), 1) > 0
  {
    hide Launch.Unit, Launch.Dst, Launch.ElementCount;
    var s' := Advance(k, states[|steps|], Step(0, 510));
    states', steps' := states + [s'], steps + [Step(0, 510)];
    var l := k.Dst(0).Plus(e);
    assert In(l, k.Element(0, e).dst, k.Unit(0));
    assert Writes(s', l, 1) == Writes(s', l, 0) + s'.writes(0, l);
    assert states'[|steps'|] == s';
  }

  /** A single buffer of 2^31 - 1 bytes: no run ends, and there is one in which a
      lane wraps around and writes before the output. */
  lemma {:induction false} WrappingLane(p: Loc, out: Loc, orig: Memory)
    ensures var k := Launch([Chunk(p, 0x7FFF_FFFF, 0, 0)], out);
            && (forall states: seq<State>, steps: seq<Step> | Run(k, orig, states, steps) :: !AllDone(k, states[|steps|]))
            && exists states: seq<State>, steps: seq<Step> ::
              Run(k, orig, states, steps) && Writes(states[|steps|], out.Plus(-0x7FFF_FE02), 1) > 0
  {
    var k := Launch([Chunk(p, 0x7FFF_FFFF, 0, 0)], out);
    assert k.bufs[..0] == [];
    assert k.ElementCount(0) == 0x7FFF_FFFF && k.Dst(0) == out && k.Unit(0) == 1;
    hide Launch.Unit, Launch.Dst, Launch.ElementCount, Enabled, Advance, Writes, AllDone;
    forall states: seq<State>, steps: seq<Step> | Run(k, orig, states, steps)
      ensures !AllDone(k, states[|steps|])
    {
      NeverDone(k, orig, states, steps, 0);
    }
    var states, steps := LaneRun(k, orig, 0, 510, 0x40_0000);
    IsEnabled(k, states[|steps|], 510);
    var states', steps' := WrappedStep(k, orig, states, steps, -0x7FFF_FE02);
  }

  lemma {:induction false} IsEnabled(k: Launch, s: State, t: nat)
    requires Shaped(k, s) && k.bufs != [] && t < THREADBLOCK_SIZE && s.next[0][t] < k.ElementCount(0)
    ensures Enabled(k, s, Step(0, t))
  {}
}

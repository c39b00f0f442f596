/** Byte-addressed memory, copies between locations, and the meaning of a
    queue of copies that has been issued but has not run yet. */
module DeviceMemory {

  type Byte = bv8

  datatype MemoryType = Cpu | CpuPinned | Gpu

  datatype Owner = Backend | Response(index: nat)

  /** The address spaces a pointer can belong to.  `Caller` memory is what the
      server or the backend hands in.  `Owned` and `Staging` regions come from
      the allocator: each serial number is a region of its own, so an allocated
      region overlaps nothing else by construction.  A buffer that the server hands
      out for a response belongs to it. */
  datatype Space =
    | Caller(memoryType: MemoryType, id: int)
    | Owned(ownedType: MemoryType, ownedId: int, ownedSerial: nat, owner: Owner)
    | Staging(serial: nat)
  {
    function Type(): MemoryType {
      match this
      case Caller(t, _) => t
      case Owned(t, _, _, _) => t
      case Staging(_) => CpuPinned
    }

    function TypeId(): int {
      match this
      case Caller(_, i) => i
      case Owned(_, i, _, _) => i
      case Staging(_) => 0
    }

    /** Handed out by the server for response i. */
    predicate IsFor(i: nat) { Owned? && owner == Response(i) }
  }

  /** Host to device and device to host copies go through pinned memory; pinned
      memory itself stands for "no staging needed". */
  function GetUsePinnedMemoryType(memoryType: MemoryType): (staged: MemoryType)
    ensures staged.Gpu? <==> memoryType.Cpu?
    ensures staged.Cpu? <==> memoryType.Gpu?
  {
    if memoryType == CpuPinned then CpuPinned
    else if memoryType == Cpu then Gpu else Cpu
  }

  /** One of the two is GPU memory, and the other is host memory that is not pinned. */
  predicate Crosses(a: MemoryType, b: MemoryType) {
    (a == Gpu && b == Cpu) || (a == Cpu && b == Gpu)
  }

  /** A pointer, and also a single byte's location. */
  datatype Loc = Loc(space: Space, addr: int) {
    function Plus(k: int): Loc { Loc(space, addr + k) }
    predicate IsNull() { space.Caller? && addr == 0 }
  }

  type Memory = Loc -> Byte

  datatype Copy = Copy(src: Loc, dst: Loc, n: nat)

  /** What the host does about a copy: performs it at once, or hands it to the stream. */
  datatype Issue = ByHost(copy: Copy) | ByStream(copy: Copy)

  /** l is one of the n bytes starting at p. */
  predicate In(l: Loc, p: Loc, n: nat) {
    l.space == p.space && p.addr <= l.addr < p.addr + n
  }

  /** The location as far from `to` as l is from `from`. */
  function Shift(l: Loc, from: Loc, to: Loc): Loc {
    Loc(to.space, to.addr + (l.addr - from.addr))
  }

  ghost predicate Apart(p: Loc, n: nat, q: Loc, m: nat) {
    forall l: Loc | In(l, p, n) :: !In(l, q, m)
  }

  /** c can change places with op: neither writes what the other reads or writes. */
  ghost predicate Independent(c: Copy, op: Copy) {
    && Apart(c.dst, c.n, op.dst, op.n)
    && Apart(c.dst, c.n, op.src, op.n)
    && Apart(c.src, c.n, op.dst, op.n)
  }

  ghost predicate IndependentOfAll(c: Copy, ops: seq<Copy>) {
    forall op | op in ops :: Independent(c, op)
  }

  /** Memory after one copy. */
  ghost function Apply(m: Memory, c: Copy): Memory {
    (l: Loc) => if In(l, c.dst, c.n) then m(Shift(l, c.dst, c.src)) else m(l)
  }

  /** Memory once every queued copy has run, first in first out. */
  ghost function Drain(m: Memory, ops: seq<Copy>): Memory {
    if ops == [] then m
    else Apply(Drain(m, ops[..|ops| - 1]), ops[|ops| - 1])
  }

  lemma {:induction false} DrainConcat(m: Memory, a: seq<Copy>, b: seq<Copy>)
    ensures Drain(m, a + b) == Drain(Drain(m, a), b)
  {
    if b == [] {
      assert a + b == a;
    } else {
      var b' := b[..|b| - 1];
      DrainConcat(m, a, b');
      assert (a + b)[..|a + b| - 1] == a + b';
    }
  }

  lemma {:induction false} DrainAppend(m: Memory, a: seq<Copy>, c: Copy)
    ensures Drain(m, a + [c]) == Apply(Drain(m, a), c)
  {
    assert (a + [c])[..|a + [c]| - 1] == a;
  }

  /** A copy inserted into a queue acts as if it came last, provided nothing
      behind it in the queue conflicts with it. */
  lemma {:induction false} InsertCopy(m: Memory, a: seq<Copy>, c: Copy, b: seq<Copy>)
    requires IndependentOfAll(c, b)
    ensures forall l: Loc :: Drain(m, a + [c] + b)(l) == Apply(Drain(m, a + b), c)(l)
  {
    if b == [] {
      assert a + [c] + b == a + [c];
      assert a + b == a;
      DrainAppend(m, a, c);
    } else {
      var b', o := b[..|b| - 1], b[|b| - 1];
      assert o in b;
      InsertCopy(m, a, c, b');
      assert a + [c] + b == (a + [c] + b') + [o];
      assert a + b == (a + b') + [o];
      DrainAppend(m, a + [c] + b', o);
      DrainAppend(m, a + b', o);
      var d, e := Drain(m, a + [c] + b'), Drain(m, a + b');
      forall l: Loc
        ensures Apply(d, o)(l) == Apply(Apply(e, o), c)(l)
      {
        assert Independent(c, o);
        var ls := Shift(l, c.dst, c.src);
        var lo := Shift(l, o.dst, o.src);
        if In(l, c.dst, c.n) {
          assert In(ls, c.src, c.n);
          assert !In(l, o.dst, o.n) && !In(ls, o.dst, o.n);
        } else if In(l, o.dst, o.n) {
          assert In(lo, o.src, o.n);
          assert !In(lo, c.dst, c.n);
        }
      }
    }
  }

  /** A copy that the host performs at once, while a queue is outstanding,
      acts as if it came after the whole queue. */
  lemma {:induction false} HostCopy(m: Memory, c: Copy, b: seq<Copy>)
    requires IndependentOfAll(c, b)
    ensures forall l: Loc :: Drain(Apply(m, c), b)(l) == Apply(Drain(m, b), c)(l)
  {
    InsertCopy(m, [], c, b);
    DrainAppend(m, [], c);
    assert [] + [c] == [c];
    DrainConcat(m, [c], b);
    assert [] + [c] + b == [c] + b;
    assert [] + b == b;
  }

  /** The device may already have run any part k of its queue when the host
      performs a conflict-free copy: the outcome is the same. */
  lemma {:induction false} DeviceProgressIsInvisible(m: Memory, ops: seq<Copy>, k: nat, c: Copy)
    requires k <= |ops| && IndependentOfAll(c, ops)
    ensures forall l: Loc ::
              Drain(Apply(Drain(m, ops[..k]), c), ops[k..])(l) == Drain(Apply(m, c), ops)(l)
  {
    HostCopy(m, c, ops);
    HostCopy(Drain(m, ops[..k]), c, ops[k..]);
    DrainConcat(m, ops[..k], ops[k..]);
    assert ops == ops[..k] + ops[k..];
  }

  /** The n bytes at p. */
  ghost function Read(m: Memory, p: Loc, n: nat): seq<Byte> {
    seq(n, i => m(p.Plus(i)))
  }
}

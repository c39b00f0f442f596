/** The memory tracker: charges the allocations and releases that the profiler
    reports to the usage object of the thread that made them. */
module MemoryTracker {

  datatype MemoryKind = DeviceMemory | PinnedMemory | PageableMemory | UnknownMemory

  datatype Operation = Allocation | Release | OtherOperation

  /** A record of the profiler. */
  datatype Record =
    | Memory(correlation: nat, operation: Operation, kind: MemoryKind, device: nat, bytes: nat)
    | Correlation(correlation: nat, known: bool, external: nat)
    | Runtime
    | OtherRecord

  /** The counters of a usage object, per device, and whether they can be trusted. */
  datatype Usage = Usage(system: seq<int>, pinned: seq<int>, cuda: seq<int>, valid: bool) {
    /** The counters of one kind of memory. */
    function Counters(kind: MemoryKind): seq<int> {
      match kind
      case DeviceMemory => cuda
      case PinnedMemory => pinned
      case PageableMemory => system
      case UnknownMemory => []
    }

    /** What a memory record that is charged to the usage does to it. */
    function Charge(r: Record): Usage
      requires r.Memory?
    {
      if !valid || r.operation.OtherOperation? then this
      else if r.device >= |Counters(r.kind)| then this.(valid := false)
      else
        var c := Counters(r.kind);
        var c' := c[r.device := if r.operation.Allocation? then c[r.device] + r.bytes else c[r.device] - r.bytes];
        match r.kind
        case DeviceMemory => this.(cuda := c')
        case PinnedMemory => this.(pinned := c')
        case PageableMemory => this.(system := c')
        case UnknownMemory => this
    }

    predicate SameDevices(u: Usage) {
      |system| == |u.system| && |pinned| == |u.pinned| && |cuda| == |u.cuda|
    }
  }

  // ---------------------------------------------------------------------------
  // The usage object
  // ---------------------------------------------------------------------------

  /** One line of the report: a device that holds memory. */
  datatype Attribute = Attribute(kind: MemoryKind, device: nat, bytes: int)

  /** The devices of one kind, from the first up to n, that hold memory. */
  function NonZero(kind: MemoryKind, counters: seq<int>, n: nat): seq<Attribute>
    requires n <= |counters|
  {
    if n == 0 then []
    else NonZero(kind, counters, n - 1) + if counters[n - 1] != 0 then [Attribute(kind, n - 1, counters[n - 1])] else []
  }

  /** Exactly the devices that hold memory are reported. */
  lemma {:induction false} NonZeroHolds(kind: MemoryKind, counters: seq<int>, n: nat, a: Attribute)
    requires n <= |counters|
    ensures a in NonZero(kind, counters, n)
            <==> a.kind == kind && a.device < n && a.bytes == counters[a.device] && a.bytes != 0
  {
    if n > 0 {
      NonZeroHolds(kind, counters, n - 1, a);
    }
  }

  /** System memory first, then pinned memory, then the devices. */
  function Report(u: Usage): seq<Attribute> {
    NonZero(PageableMemory, u.system, |u.system|) + NonZero(PinnedMemory, u.pinned, |u.pinned|)
    + NonZero(DeviceMemory, u.cuda, |u.cuda|)
  }

  /** What is reported: the counters of each kind that are not zero, under that kind. */
  lemma {:induction false} ReportHolds(u: Usage, a: Attribute)
    ensures a in Report(u) <==>
              || (a.kind.PageableMemory? && a.device < |u.system| && a.bytes == u.system[a.device] != 0)
              || (a.kind.PinnedMemory? && a.device < |u.pinned| && a.bytes == u.pinned[a.device] != 0)
              || (a.kind.DeviceMemory? && a.device < |u.cuda| && a.bytes == u.cuda[a.device] != 0)
  {
    NonZeroHolds(PageableMemory, u.system, |u.system|, a);
    NonZeroHolds(PinnedMemory, u.pinned, |u.pinned|, a);
    NonZeroHolds(DeviceMemory, u.cuda, |u.cuda|, a);
  }

  /** a is reported before b. */
  predicate Precedes(a: Attribute, b: Attribute) {
    || (a.kind == b.kind && a.device < b.device)
    || (a.kind.PageableMemory? && (b.kind.PinnedMemory? || b.kind.DeviceMemory?))
    || (a.kind.PinnedMemory? && b.kind.DeviceMemory?)
  }

  /** The devices of one kind come in their order. */
  lemma {:induction false} NonZeroInOrder(kind: MemoryKind, counters: seq<int>, n: nat)
    requires n <= |counters|
    ensures forall a | a in NonZero(kind, counters, n) :: a.kind == kind && a.device < n
    ensures forall i, j | 0 <= i < j < |NonZero(kind, counters, n)| ::
              Precedes(NonZero(kind, counters, n)[i], NonZero(kind, counters, n)[j])
  {
    if n > 0 {
      NonZeroInOrder(kind, counters, n - 1);
    }
  }

  /** And the kinds in theirs, so that nothing is reported twice. */
  lemma {:induction false} ReportInOrder(u: Usage)
    ensures forall i, j | 0 <= i < j < |Report(u)| :: Precedes(Report(u)[i], Report(u)[j])
  {
    hide NonZero;
    NonZeroInOrder(PageableMemory, u.system, |u.system|);
    NonZeroInOrder(PinnedMemory, u.pinned, |u.pinned|);
    NonZeroInOrder(DeviceMemory, u.cuda, |u.cuda|);
  }

  function Sum(a: seq<int>, b: seq<int>): (c: seq<int>)
    requires |b| <= |a|
    ensures |c| == |a| && forall i | 0 <= i < |a| :: c[i] == if i < |b| then a[i] + b[i] else a[i]
  {
    seq(|a|, i requires 0 <= i < |a| => if i < |b| then a[i] + b[i] else a[i])
  }

  class MemoryUsage {
    var system: seq<int>
    var pinned: seq<int>
    var cuda: seq<int>
    var valid: bool
    /** Grows as needed and is used again by the next report. */
    var attributes: seq<Attribute>

    constructor (deviceCount: nat)
      ensures Value() == Usage([0], [0], seq(deviceCount, _ => 0), true) && attributes == []
    {
      system, pinned, cuda := [0], [0], seq(deviceCount, _ => 0);
      valid, attributes := true, [];
    }

    function Value(): Usage
      reads this
    {
      Usage(system, pinned, cuda, valid)
    }

    method AddAll(a: seq<int>, b: seq<int>) returns (c: seq<int>)
      requires |b| <= |a|
      ensures c == Sum(a, b)
    {
      c := a;
      var i := 0;
      while i < |b|
        invariant i <= |b| && |c| == |a|
        invariant forall j | 0 <= j < |a| :: c[j] == if j < i then a[j] + b[j] else a[j]
      {
        c := c[i := c[i] + b[i]];
        i := i + 1;
      }
    }

    /** Adds the counters of another usage object; whether this one can be trusted
        stays as it is. */
    method Merge(rhs: MemoryUsage)
      requires |rhs.system| <= |system| && |rhs.pinned| <= |pinned| && |rhs.cuda| <= |cuda|
      modifies this`system, this`pinned, this`cuda
      ensures Value() == old(Merged(Value(), rhs.Value()))
    {
      system := AddAll(system, rhs.system);
      pinned := AddAll(pinned, rhs.pinned);
      cuda := AddAll(cuda, rhs.cuda);
    }

    /** Charges a record to the counters of one kind: an allocation counts up, a release
        down, and the other devices stay as they are. */
    method UpdateMemoryTypeUsage(r: Record, counters: seq<int>) returns (ok: bool, updated: seq<int>)
      requires r.Memory? && !r.operation.OtherOperation?
      ensures ok <==> r.device < |counters|
      ensures !ok ==> updated == counters
      ensures ok && r.operation.Allocation? ==> updated == counters[r.device := counters[r.device] + r.bytes]
      ensures ok && r.operation.Release? ==> updated == counters[r.device := counters[r.device] - r.bytes]
    {
      if r.device >= |counters| {
        return false, counters;
      }
      if r.operation.Allocation? {
        return true, counters[r.device := counters[r.device] + r.bytes];
      }
      return true, counters[r.device := counters[r.device] - r.bytes];
    }

    method Charge(r: Record)
      requires r.Memory?
      modifies this
      ensures Value() == old(Value()).Charge(r) && attributes == old(attributes)
      ensures valid <==> old(valid) && (r.operation.OtherOperation? || match r.kind
                                                                       case DeviceMemory => r.device < |cuda|
                                                                       case PinnedMemory => r.device < |pinned|
                                                                       case PageableMemory => r.device < |system|
                                                                       case UnknownMemory => false)
      ensures r.kind.DeviceMemory? || cuda == old(cuda)
      ensures r.kind.PinnedMemory? || pinned == old(pinned)
      ensures r.kind.PageableMemory? || system == old(system)
    {
      if !valid || r.operation.OtherOperation? {
        return;
      }
      match r.kind {
        case DeviceMemory => valid, cuda := UpdateMemoryTypeUsage(r, cuda);
        case PinnedMemory => valid, pinned := UpdateMemoryTypeUsage(r, pinned);
        case PageableMemory => valid, system := UpdateMemoryTypeUsage(r, system);
        case UnknownMemory => valid := false;
      }
    }

    method SetAttributes(kind: MemoryKind, devices: seq<int>, used0: nat) returns (used: nat)
      requires used0 <= |attributes|
      modifies this`attributes
      ensures used0 <= used <= |attributes| && |attributes| >= |old(attributes)|
      ensures attributes[..used] == old(attributes)[..used0] + NonZero(kind, devices, |devices|)
      ensures |attributes| == if used > |old(attributes)| then used else |old(attributes)|
    {
      used := used0;
      var i := 0;
      while i < |devices|
        invariant i <= |devices| && used0 <= used <= |attributes|
        invariant attributes[..used] == old(attributes)[..used0] + NonZero(kind, devices, i)
        invariant |attributes| == if used > |old(attributes)| then used else |old(attributes)|
      {
        if devices[i] != 0 {
          var entry := Attribute(kind, i, devices[i]);
          ghost var was := attributes[..used];
          if used >= |attributes| {
            attributes := attributes + [entry];
          } else {
            attributes := attributes[used := entry];
          }
          assert attributes[..used + 1] == was + [entry];
          used := used + 1;
        }
        i := i + 1;
      }
    }

    /** Reports the devices that hold memory, in a list that is kept for reuse. */
    method SerializeToBufferAttributes() returns (ok: bool, size: nat)
      modifies this`attributes
      ensures ok == valid
      ensures ok ==> size <= |attributes| && attributes[..size] == Report(Value())
      ensures !ok ==> attributes == old(attributes)
    {
      size := 0;
      if !valid {
        return false, size;
      }
      size := SetAttributes(PageableMemory, system, size);
      size := SetAttributes(PinnedMemory, pinned, size);
      size := SetAttributes(DeviceMemory, cuda, size);
      ok := true;
    }
  }

  function Merged(a: Usage, b: Usage): Usage
    requires |b.system| <= |a.system| && |b.pinned| <= |a.pinned| && |b.cuda| <= |a.cuda|
  {
    Usage(Sum(a.system, b.system), Sum(a.pinned, b.pinned), Sum(a.cuda, b.cuda), a.valid)
  }

  // ---------------------------------------------------------------------------
  // The tracker
  // ---------------------------------------------------------------------------

  /** Which usage each correlation is bound to, and the usages. */
  datatype Tracking = Tracking(bindings: map<nat, nat>, usages: map<nat, Usage>)

  /** What one record does. */
  function Track(t: Tracking, r: Record): Tracking {
    match r
    case Memory(correlation, _, _, _, _) =>
      if correlation !in t.bindings then t
      else
        var id := t.bindings[correlation];
        Tracking(t.bindings - {correlation}, if id in t.usages then t.usages[id := t.usages[id].Charge(r)] else t.usages)
    case Correlation(correlation, known, external) =>
      if known then t.(bindings := t.bindings[correlation := external]) else t
    case Runtime => t
    case OtherRecord => t
  }

  function TrackAll(t: Tracking, rs: seq<Record>): Tracking {
    if rs == [] then t else Track(TrackAll(t, rs[..|rs| - 1]), rs[|rs| - 1])
  }

  class DeviceMemoryTracker {
    var activityToMemoryUsage: map<nat, nat>
    /** The usage objects that external ids stand for. */
    const usages: map<nat, MemoryUsage>

    /** Different ids stand for different objects. */
    ghost predicate Valid()
      reads this
    {
      forall a, b | a in usages && b in usages && a != b :: usages[a] != usages[b]
    }

    constructor (usages: map<nat, MemoryUsage>)
      requires forall a, b | a in usages && b in usages && a != b :: usages[a] != usages[b]
      ensures Valid() && this.usages == usages && activityToMemoryUsage == map[]
    {
      this.usages := usages;
      activityToMemoryUsage := map[];
    }

    ghost function State(): Tracking
      reads this, usages.Values
    {
      Tracking(activityToMemoryUsage, map id | id in usages :: usages[id].Value())
    }

    method TrackActivity(r: Record)
      requires Valid()
      modifies this, usages.Values
      ensures Valid() && State() == Track(old(State()), r)
      ensures var known := old(activityToMemoryUsage);
              activityToMemoryUsage == match r
                                       case Memory(correlation, _, _, _, _) => known - {correlation}
                                       case Correlation(correlation, true, external) => known[correlation := external]
                                       case _ => known
      ensures forall id | id in usages ::
                usages[id].Value() == if r.Memory? && r.correlation in old(activityToMemoryUsage)
                                         && old(activityToMemoryUsage)[r.correlation] == id
                                      then old(usages[id].Value()).Charge(r) else old(usages[id].Value())
    {
      match r {
        case Memory(correlation, _, _, _, _) =>
          if correlation in activityToMemoryUsage {
            var id := activityToMemoryUsage[correlation];
            activityToMemoryUsage := activityToMemoryUsage - {correlation};
            if id in usages {
              usages[id].Charge(r);
            }
          }
        case Correlation(correlation, known, external) =>
          if known {
            activityToMemoryUsage := activityToMemoryUsage[correlation := external];
          }
        case Runtime =>
        case OtherRecord =>
      }
    }
  }

  // ---------------------------------------------------------------------------
  // The ledger
  // ---------------------------------------------------------------------------

  /** Which record binds the correlation after the first n records: the last known
      one for it that no memory record has consumed since, or none. */
  function Binder(rs: seq<Record>, n: nat, correlation: nat): (j: int)
    requires n <= |rs|
    ensures -1 <= j < n
    ensures j >= 0 ==> rs[j].Correlation? && rs[j].known && rs[j].correlation == correlation
    ensures forall i | j < i < n ::
              !(rs[i].Correlation? && rs[i].known && rs[i].correlation == correlation)
              || exists k | i < k < n :: rs[k].Memory? && rs[k].correlation == correlation
    ensures j >= 0 ==> forall k | j < k < n :: !(rs[k].Memory? && rs[k].correlation == correlation)
  {
    if n == 0 then -1
    else
      var r := rs[n - 1];
      if r.Memory? && r.correlation == correlation then -1
      else if r.Correlation? && r.known && r.correlation == correlation then n - 1
      else Binder(rs, n - 1, correlation)
  }

  /** The i-th record is an allocation or a release that counts for usage id. */
  predicate ChargedTo(rs: seq<Record>, i: nat, id: nat)
    requires i < |rs|
  {
    rs[i].Memory? && !rs[i].operation.OtherOperation?
    && var j := Binder(rs, i, rs[i].correlation);
       j >= 0 && rs[j].external == id
  }

  /** The bytes of one device that the first n records that count for id say were
      allocated, or released. */
  function Moved(rs: seq<Record>, n: nat, id: nat, operation: Operation, kind: MemoryKind, device: nat): nat
    requires n <= |rs|
  {
    if n == 0 then 0
    else
      Moved(rs, n - 1, id, operation, kind, device)
      + if IsMove(rs, n - 1, id, operation, kind, device) then rs[n - 1].bytes else 0
  }

  predicate IsMove(rs: seq<Record>, i: nat, id: nat, operation: Operation, kind: MemoryKind, device: nat)
    requires i < |rs|
    ensures IsMove(rs, i, id, operation, kind, device) ==> rs[i].Memory?
  {
    ChargedTo(rs, i, id) && rs[i].operation == operation && rs[i].kind == kind && rs[i].device == device
  }

  /** Allocations minus releases among the first n records that count for id. */
  function Ledger(rs: seq<Record>, n: nat, id: nat, kind: MemoryKind, device: nat): int
    requires n <= |rs|
  {
    Moved(rs, n, id, Allocation, kind, device) - Moved(rs, n, id, Release, kind, device)
  }

  /** Every record that counts for id is about a device the usage knows. */
  predicate AllKnown(rs: seq<Record>, n: nat, id: nat, u: Usage)
    requires n <= |rs|
  {
    forall i | 0 <= i < n && ChargedTo(rs, i, id) :: rs[i].device < |u.Counters(rs[i].kind)|
  }

  /** The tracker's bindings are those of the records seen so far. */
  lemma {:induction false} BindingsFollow(t: Tracking, rs: seq<Record>, n: nat, correlation: nat)
    requires n <= |rs| && t.bindings == map[]
    ensures var j, b := Binder(rs, n, correlation), TrackAll(t, rs[..n]).bindings;
            (correlation in b <==> j >= 0) && (j >= 0 ==> b[correlation] == rs[j].external)
  {
    if n > 0 {
      BindingsFollow(t, rs, n - 1, correlation);
      assert rs[..n][..n - 1] == rs[..n - 1];
    }
  }

  /** No two memory records consume the same binding. */
  lemma {:induction false} BindingConsumedOnce(rs: seq<Record>, i: nat, k: nat)
    requires i < k < |rs| && rs[i].Memory? && rs[k].Memory?
    requires Binder(rs, i, rs[i].correlation) >= 0
    ensures Binder(rs, k, rs[k].correlation) != Binder(rs, i, rs[i].correlation)
  {
    assert rs[Binder(rs, i, rs[i].correlation)].correlation == rs[i].correlation;
  }

  lemma {:induction false} UsageStep(t: Tracking, rs: seq<Record>, n: nat, id: nat)
    requires n < |rs| && t.bindings == map[] && id in t.usages && id in TrackAll(t, rs[..n]).usages
    ensures id in TrackAll(t, rs[..n + 1]).usages
    ensures TrackAll(t, rs[..n + 1]).usages[id]
         == if ChargedTo(rs, n, id) then TrackAll(t, rs[..n]).usages[id].Charge(rs[n]) else TrackAll(t, rs[..n]).usages[id]
  {
    assert rs[..n + 1][..n] == rs[..n];
    if rs[n].Memory? {
      BindingsFollow(t, rs, n, rs[n].correlation);
    }
  }

  /** A usage can be trusted after any sequence of records exactly if it could be
      before and every record that counts for it is about a device it knows.  Then
      each counter has grown by the allocations minus the releases that count for
      it. */
  lemma {:induction false} CountersAreLedger(t: Tracking, rs: seq<Record>, n: nat, id: nat)
    requires n <= |rs| && t.bindings == map[] && id in t.usages
    ensures id in TrackAll(t, rs[..n]).usages
    ensures var u0, u := t.usages[id], TrackAll(t, rs[..n]).usages[id];
            && u.SameDevices(u0)
            && (u.valid <==> u0.valid && AllKnown(rs, n, id, u0))
            && (u.valid ==> forall kind: MemoryKind, d: nat | d < |u.Counters(kind)| ::
                              u.Counters(kind)[d] == u0.Counters(kind)[d] + Moved(rs, n, id, Allocation, kind, d)
                                                                          - Moved(rs, n, id, Release, kind, d))
  {
    hide Usage.Charge, TrackAll, Track, ChargedTo, AllKnown, Usage.Counters;
    if n == 0 {
      NothingTracked(t, rs, id);
    } else {
      CountersAreLedger(t, rs, n - 1, id);
      UsageStep(t, rs, n - 1, id);
      LedgerStep(rs, n - 1, id, t.usages[id], TrackAll(t, rs[..n - 1]).usages[id], TrackAll(t, rs[..n]).usages[id]);
    }
  }

  lemma {:induction false} NothingTracked(t: Tracking, rs: seq<Record>, id: nat)
    requires id in t.usages
    ensures TrackAll(t, rs[..0]) == t && AllKnown(rs, 0, id, t.usages[id])
  {}

  /** One more record, and what it does to a usage that has followed the ledger so far. */
  lemma {:induction false} LedgerStep(rs: seq<Record>, n: nat, id: nat, u0: Usage, v: Usage, u: Usage)
    requires n < |rs| && v.SameDevices(u0) && u == if ChargedTo(rs, n, id) then v.Charge(rs[n]) else v
    requires v.valid <==> u0.valid && AllKnown(rs, n, id, u0)
    requires v.valid ==> forall kind: MemoryKind, d: nat | d < |v.Counters(kind)| ::
                           v.Counters(kind)[d] == u0.Counters(kind)[d] + Ledger(rs, n, id, kind, d)
    ensures u.SameDevices(u0) && (u.valid <==> u0.valid && AllKnown(rs, n + 1, id, u0))
    ensures u.valid ==> forall kind: MemoryKind, d: nat | d < |u.Counters(kind)| ::
                          u.Counters(kind)[d] == u0.Counters(kind)[d] + Ledger(rs, n + 1, id, kind, d)
  {
    hide Usage.Charge, ChargedTo;
    if ChargedTo(rs, n, id) {
      IsCharge(rs, n, id);
      ChargeValid(v, rs[n]);
      if u.valid {
        forall kind: MemoryKind, d: nat | d < |u.Counters(kind)|
          ensures u.Counters(kind)[d] == u0.Counters(kind)[d] + Ledger(rs, n + 1, id, kind, d)
        {
          ChargeCounter(v, rs[n], kind, d);
        }
      }
    }
  }

  lemma {:induction false} IsCharge(rs: seq<Record>, i: nat, id: nat)
    requires i < |rs| && ChargedTo(rs, i, id)
    ensures rs[i].Memory? && !rs[i].operation.OtherOperation?
  {}

  /** A charge is only refused for an unknown device, and once and for all. */
  lemma {:induction false} ChargeValid(u: Usage, r: Record)
    requires r.Memory? && !r.operation.OtherOperation?
    ensures u.Charge(r).valid <==> u.valid && r.device < |u.Counters(r.kind)|
    ensures u.Charge(r).SameDevices(u)
  {}

  lemma {:induction false} ChargeCounter(u: Usage, r: Record, kind: MemoryKind, d: nat)
    requires r.Memory? && !r.operation.OtherOperation? && u.Charge(r).valid && d < |u.Charge(r).Counters(kind)|
    ensures d < |u.Counters(kind)|
    ensures u.Charge(r).Counters(kind)[d]
         == if r.kind != kind || r.device != d then u.Counters(kind)[d]
            else if r.operation.Allocation? then u.Counters(kind)[d] + r.bytes else u.Counters(kind)[d] - r.bytes
  {}

  /** A usage that cannot be trusted never changes again. */
  lemma {:induction false} InvalidIsFrozen(t: Tracking, rs: seq<Record>, id: nat)
    requires id in t.usages && !t.usages[id].valid
    ensures id in TrackAll(t, rs).usages && TrackAll(t, rs).usages[id] == t.usages[id]
  {
    if rs != [] {
      InvalidIsFrozen(t, rs[..|rs| - 1], id);
    }
  }

  /** A usage tells everything that counted for a and for b: no record is about a device
      it does not know, and its counters are allocations minus releases. */
  ghost predicate Tells(u: Usage, rs: seq<Record>, a: nat, b: nat) {
    && AllKnown(rs, |rs|, a, u) && AllKnown(rs, |rs|, b, u)
    && forall kind: MemoryKind, d: nat | d < |u.Counters(kind)| ::
         u.Counters(kind)[d] == Ledger(rs, |rs|, a, kind, d) + Ledger(rs, |rs|, b, kind, d)
  }

  /** Two fresh usages with the same devices, merged, tell what counted for either of them
      exactly if both can be trusted; but the result can be trusted, it says, if the left
      one can. */
  lemma {:induction false} MergedLedger(t: Tracking, rs: seq<Record>, a: nat, b: nat)
    requires t.bindings == map[] && a in t.usages && b in t.usages && t.usages[a].SameDevices(t.usages[b])
    requires t.usages[a].valid && t.usages[b].valid
    requires forall k: MemoryKind, i: nat | i < |t.usages[a].Counters(k)| ::
               t.usages[a].Counters(k)[i] == 0 == t.usages[b].Counters(k)[i]
    ensures a in TrackAll(t, rs).usages && b in TrackAll(t, rs).usages
    ensures var u, v := TrackAll(t, rs).usages[a], TrackAll(t, rs).usages[b];
            && u.SameDevices(v) && Merged(u, v).valid == u.valid
            && (Tells(Merged(u, v), rs, a, b) <==> u.valid && v.valid)
  {
    assert rs[..|rs|] == rs;
    CountersAreLedger(t, rs, |rs|, a);
    CountersAreLedger(t, rs, |rs|, b);
  }

  /** A usage that has met an unknown device, merged into one that has not: the result is
      valid and knows nothing of the memory. */
  lemma {:induction false} MergeHidesInvalid(zero: Usage, t: Tracking, rs: seq<Record>)
    requires zero == Usage([0], [0], [0], true) && t == Tracking(map[], map[0 := zero, 1 := zero])
    requires rs == [Correlation(7, true, 1), Memory(7, Allocation, DeviceMemory, 3, 100)]
    ensures 0 in TrackAll(t, rs).usages && 1 in TrackAll(t, rs).usages
    ensures TrackAll(t, rs).usages[0] == zero && TrackAll(t, rs).usages[1] == zero.(valid := false)
    ensures Merged(zero, zero.(valid := false)) == zero && !Tells(zero, rs, 0, 1)
  {
    var c, r := rs[0], rs[1];
    var t1 := Track(t, c);
    assert [c][..0] == [] && TrackAll(t, []) == t && TrackAll(t, [c]) == t1;
    assert rs[..1] == [c] && TrackAll(t, rs) == Track(TrackAll(t, rs[..1]), r);
    assert zero.Charge(r) == zero.(valid := false);
    MergedLedger(t, rs, 0, 1);
    assert Sum([0], [0]) == [0];
  }
}

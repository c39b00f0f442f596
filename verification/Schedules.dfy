/** What memory can come to hold while the host goes on without waiting for the device:
    the host issues its copies one after the other, and the device works off the stream
    whenever it gets to it. */
module Schedules {
  import opened DeviceMemory

  // ---------------------------------------------------------------------------
  // Runs
  // ---------------------------------------------------------------------------

  /** Memory, what the stream still holds, and how many copies have been issued. */
  datatype State = State(mem: Memory, queue: seq<Copy>, next: nat)

  datatype Step = Host | Device

  ghost predicate Next(log: seq<Issue>, s: State, a: Step, s': State) {
    match a
    case Host =>
      && s.next < |log|
      && s' == (match log[s.next]
                case ByHost(c) => State(Apply(s.mem, c), s.queue, s.next + 1)
                case ByStream(c) => State(s.mem, s.queue + [c], s.next + 1))
    case Device =>
      && s.queue != [] && s' == State(Apply(s.mem, s.queue[0]), s.queue[1..], s.next)
  }

  ghost predicate Run(log: seq<Issue>, m: Memory, states: seq<State>, steps: seq<Step>) {
    && |states| == |steps| + 1 && states[0] == State(m, [], 0)
    && forall i | 0 <= i < |steps| :: Next(log, states[i], steps[i], states[i + 1])
  }

  /** The host has issued everything. */
  predicate Issued(log: seq<Issue>, s: State) { s.next == |log| }

  /** And the stream has run dry. */
  predicate Over(log: seq<Issue>, s: State) { s.next == |log| && s.queue == [] }

  ghost predicate Writes(op: Issue, l: Loc) {
    In(l, op.copy.dst, op.copy.n)
  }

  /** Nothing in the log writes l. */
  ghost predicate Constant(log: seq<Issue>, l: Loc) {
    forall op | op in log :: !Writes(op, l)
  }

  /** The location that l is copied from. */
  function Source(op: Issue, l: Loc): Loc {
    Shift(l, op.copy.dst, op.copy.src)
  }

  /** l is written by op and by nothing else. */
  ghost predicate OnlyBy(log: seq<Issue>, l: Loc, op: Issue) {
    Writes(op, l) && forall o | o in log && Writes(o, l) :: o == op
  }

  // ---------------------------------------------------------------------------
  // What every run keeps
  // ---------------------------------------------------------------------------

  ghost predicate FromLog(log: seq<Issue>, s: State) {
    s.next <= |log| && forall c | c in s.queue :: ByStream(c) in log[..s.next]
  }

  lemma {:induction false} StepFromLog(log: seq<Issue>, s: State, a: Step, s': State)
    requires FromLog(log, s) && Next(log, s, a, s')
    ensures FromLog(log, s') && s.next <= s'.next && forall op | op in log[..s.next] :: op in log[..s'.next]
  {
    assert s'.next == s.next + 1 ==> log[..s'.next] == log[..s.next] + [log[s.next]];
  }

  lemma {:induction false} StepConstant(log: seq<Issue>, s: State, a: Step, s': State, l: Loc)
    requires FromLog(log, s) && Next(log, s, a, s') && Constant(log, l)
    ensures s'.mem(l) == s.mem(l)
  {
    if a.Device? {
      assert s.queue[0] in s.queue && ByStream(s.queue[0]) in log;
      assert !Writes(ByStream(s.queue[0]), l);
    } else {
      assert log[s.next] in log;
    }
  }

  lemma {:induction false} RunConstant(log: seq<Issue>, m: Memory, states: seq<State>, steps: seq<Step>, i: nat)
    requires Run(log, m, states, steps) && i < |states|
    ensures FromLog(log, states[i]) && forall l: Loc | Constant(log, l) :: states[i].mem(l) == m(l)
  {
    if i > 0 {
      hide Next, FromLog, Constant;
      RunConstant(log, m, states, steps, i - 1);
      StepFromLog(log, states[i - 1], steps[i - 1], states[i]);
      forall l: Loc | Constant(log, l)
        ensures states[i].mem(l) == m(l)
      {
        StepConstant(log, states[i - 1], steps[i - 1], states[i], l);
      }
    }
  }

  /** A location that only op writes, from one that nothing writes: it is as it was or
      as its source, and as its source once op has been performed. */
  ghost predicate Tracks(log: seq<Issue>, m: Memory, s: State, l: Loc, op: Issue) {
    && s.next <= |log| && (s.mem(l) == m(l) || s.mem(l) == m(Source(op, l)))
    && (op in log[..s.next] && (op.ByHost? || op.copy !in s.queue) ==> s.mem(l) == m(Source(op, l)))
  }

  lemma {:induction false} StepTracks(log: seq<Issue>, m: Memory, s: State, a: Step, s': State, l: Loc, op: Issue)
    requires FromLog(log, s) && Next(log, s, a, s') && OnlyBy(log, l, op) && Tracks(log, m, s, l, op)
    requires s.mem(Source(op, l)) == m(Source(op, l))
    ensures Tracks(log, m, s', l, op)
  {
    if a.Host? {
      var o := log[s.next];
      assert log[..s'.next] == log[..s.next] + [o];
      assert o in log && (Writes(o, l) ==> o == op);
      assert s.next < |log| && o.ByStream? ==> s'.queue == s.queue + [o.copy];
    } else {
      var c := s.queue[0];
      assert s.queue == [c] + s'.queue;
      assert c in s.queue && ByStream(c) in log && (Writes(ByStream(c), l) ==> ByStream(c) == op);
    }
  }

  lemma {:induction false} RunTracks(log: seq<Issue>, m: Memory, states: seq<State>, steps: seq<Step>, i: nat, l: Loc,
                                     op: Issue)
    requires Run(log, m, states, steps) && i < |states| && OnlyBy(log, l, op) && Constant(log, Source(op, l))
    ensures Tracks(log, m, states[i], l, op)
  {
    if i > 0 {
      hide Next, FromLog, Constant, OnlyBy, Tracks;
      RunConstant(log, m, states, steps, i - 1);
      RunTracks(log, m, states, steps, i - 1, l, op);
      StepTracks(log, m, states[i - 1], steps[i - 1], states[i], l, op);
    }
  }

  // ---------------------------------------------------------------------------
  // Two copies one behind the other
  // ---------------------------------------------------------------------------

  /** What first brings to a location that second copies from: first stands in the log
      before every occurrence of second. */
  ghost predicate Chained(log: seq<Issue>, n: nat, l: Loc, first: Issue, second: Issue) {
    && n <= |log| && first in log[..n] && second !in log[..n] && first !in log[n..]
    && OnlyBy(log, l, second) && OnlyBy(log, Source(second, l), first)
    && Constant(log, Source(first, Source(second, l)))
  }

  /** The first input of the chain. */
  function Origin(l: Loc, first: Issue, second: Issue): Loc {
    Source(first, Source(second, l))
  }

  /** second has only ever copied what first brought, and in the stream it stands behind. */
  ghost predicate Follows(log: seq<Issue>, n: nat, m: Memory, s: State, l: Loc, first: Issue, second: Issue) {
    && s.next <= |log|
    && (second in log[..s.next] && (second.ByHost? || second.copy !in s.queue) ==> s.mem(l) == m(Origin(l, first, second)))
    && forall x, y | 0 <= x < |s.queue| && 0 <= y < |s.queue| ::
         ByStream(s.queue[x]) == first && ByStream(s.queue[y]) == second ==> x < y
  }

  lemma {:induction false} StepFollows(log: seq<Issue>, n: nat, m: Memory, s: State, a: Step, s': State, l: Loc,
                                       first: Issue, second: Issue)
    requires Chained(log, n, l, first, second) && !(first.ByStream? && second.ByHost?)
    requires FromLog(log, s) && Next(log, s, a, s')
    requires Tracks(log, m, s, Source(second, l), first) && Follows(log, n, m, s, l, first, second)
    ensures Follows(log, n, m, s', l, first, second)
  {
    if a.Host? {
      HostFollows(log, n, m, s, s', l, first, second);
    } else {
      DeviceFollows(log, n, m, s, s', l, first, second);
    }
  }

  lemma {:induction false} HostFollows(log: seq<Issue>, n: nat, m: Memory, s: State, s': State, l: Loc,
                                       first: Issue, second: Issue)
    requires Chained(log, n, l, first, second) && !(first.ByStream? && second.ByHost?)
    requires FromLog(log, s) && Next(log, s, Host, s')
    requires Tracks(log, m, s, Source(second, l), first) && Follows(log, n, m, s, l, first, second)
    ensures Follows(log, n, m, s', l, first, second)
  {
    var o := log[s.next];
    assert log[..s'.next] == log[..s.next] + [o];
    assert o in log && (Writes(o, l) ==> o == second);
    if s.next < n {
      assert o == log[..n][s.next] && second != o;
    } else {
      assert o == log[n..][s.next - n] && first != o;
      assert log[..n] == log[..s.next][..n];
      assert first in log[..s.next];
    }
  }

  lemma {:induction false} DeviceFollows(log: seq<Issue>, n: nat, m: Memory, s: State, s': State, l: Loc,
                                         first: Issue, second: Issue)
    requires Chained(log, n, l, first, second) && !(first.ByStream? && second.ByHost?)
    requires FromLog(log, s) && Next(log, s, Device, s')
    requires Tracks(log, m, s, Source(second, l), first) && Follows(log, n, m, s, l, first, second)
    ensures Follows(log, n, m, s', l, first, second)
  {
    var c := s.queue[0];
    assert s.queue == [c] + s'.queue;
    assert c in s.queue && ByStream(c) in log && (Writes(ByStream(c), l) ==> ByStream(c) == second);
    if ByStream(c) == second {
      assert log[..n] == log[..s.next][..n];
      assert first in log[..s.next];
      assert forall x | 0 <= x < |s.queue| :: ByStream(s.queue[x]) != first;
    }
    forall x, y | 0 <= x < |s'.queue| && 0 <= y < |s'.queue|
      ensures ByStream(s'.queue[x]) == first && ByStream(s'.queue[y]) == second ==> x < y
    {
      assert s'.queue[x] == s.queue[x + 1] && s'.queue[y] == s.queue[y + 1];
    }
  }

  lemma {:induction false} RunFollows(log: seq<Issue>, n: nat, m: Memory, states: seq<State>, steps: seq<Step>, i: nat,
                                      l: Loc, first: Issue, second: Issue)
    requires Chained(log, n, l, first, second) && !(first.ByStream? && second.ByHost?)
    requires Run(log, m, states, steps) && i < |states|
    ensures Follows(log, n, m, states[i], l, first, second)
  {
    if i > 0 {
      hide Next, FromLog, Constant, OnlyBy, Tracks, Follows;
      RunConstant(log, m, states, steps, i);
      RunTracks(log, m, states, steps, i - 1, Source(second, l), first);
      RunTracks(log, m, states, steps, i, Source(second, l), first);
      RunConstant(log, m, states, steps, i - 1);
      RunFollows(log, n, m, states, steps, i - 1, l, first, second);
      StepFollows(log, n, m, states[i - 1], steps[i - 1], states[i], l, first, second);
    }
  }

  /** Unless the host copies what the stream was to bring, the chain brings its input in
      every run. */
  lemma {:induction false} ChainDelivers(log: seq<Issue>, n: nat, m: Memory, states: seq<State>, steps: seq<Step>, i: nat,
                                         l: Loc, first: Issue, second: Issue)
    requires Chained(log, n, l, first, second) && second in log && !(first.ByStream? && second.ByHost?)
    requires Run(log, m, states, steps) && i < |states| && Issued(log, states[i])
    requires second.ByHost? || Over(log, states[i])
    ensures states[i].mem(l) == m(Origin(l, first, second))
  {
    RunFollows(log, n, m, states, steps, i, l, first, second);
    assert log[..|log|] == log;
  }

  /** A copy of what nothing writes brings it in every run. */
  lemma {:induction false} CopyDelivers(log: seq<Issue>, m: Memory, states: seq<State>, steps: seq<Step>, i: nat, l: Loc,
                                        op: Issue)
    requires OnlyBy(log, l, op) && op in log && Constant(log, Source(op, l))
    requires Run(log, m, states, steps) && i < |states| && Issued(log, states[i])
    requires op.ByHost? || Over(log, states[i])
    ensures states[i].mem(l) == m(Source(op, l))
  {
    RunTracks(log, m, states, steps, i, l, op);
    assert log[..|log|] == log;
  }

  // ---------------------------------------------------------------------------
  // The run in which the device does nothing until the host is through
  // ---------------------------------------------------------------------------

  /** Memory after the host's own copies among the first n. */
  ghost function HostMemory(log: seq<Issue>, m: Memory, n: nat): Memory
    requires n <= |log|
  {
    if n == 0 then m
    else
      match log[n - 1]
      case ByHost(c) => Apply(HostMemory(log, m, n - 1), c)
      case ByStream(_) => HostMemory(log, m, n - 1)
  }

  ghost function Waiting(log: seq<Issue>, n: nat): seq<Copy>
    requires n <= |log|
  {
    if n == 0 then []
    else
      match log[n - 1]
      case ByHost(_) => Waiting(log, n - 1)
      case ByStream(c) => Waiting(log, n - 1) + [c]
  }

  /** The host gets through before the device has begun. */
  lemma {:induction false} HostFirst(log: seq<Issue>, m: Memory, n: nat) returns (states: seq<State>, steps: seq<Step>)
    requires n <= |log|
    ensures Run(log, m, states, steps) && |steps| == n
    ensures states[n] == State(HostMemory(log, m, n), Waiting(log, n), n)
  {
    if n == 0 {
      states, steps := [State(m, [], 0)], [];
    } else {
      var states0, steps0 := HostFirst(log, m, n - 1);
      var s := State(HostMemory(log, m, n), Waiting(log, n), n);
      hide HostMemory, Waiting;
      assert Next(log, states0[n - 1], Host, s) by { HostStep(log, m, n); }
      Append(log, m, states0, steps0, Host, s);
      states, steps := states0 + [s], steps0 + [Host];
    }
  }

  lemma {:induction false} HostStep(log: seq<Issue>, m: Memory, n: nat)
    requires 0 < n <= |log|
    ensures Next(log, State(HostMemory(log, m, n - 1), Waiting(log, n - 1), n - 1), Host,
                 State(HostMemory(log, m, n), Waiting(log, n), n))
  {}

  lemma {:induction false} Append(log: seq<Issue>, m: Memory, states: seq<State>, steps: seq<Step>, a: Step, s: State)
    requires Run(log, m, states, steps) && Next(log, states[|steps|], a, s)
    ensures Run(log, m, states + [s], steps + [a])
  {
    hide Next;
    var states', steps' := states + [s], steps + [a];
    forall i | 0 <= i < |steps'|
      ensures Next(log, states'[i], steps'[i], states'[i + 1])
    {
      if i < |steps| {
        assert states'[i] == states[i] && states'[i + 1] == states[i + 1] && steps'[i] == steps[i];
      }
    }
  }

  /** Then the device works off the stream. */
  lemma {:induction false} ThenDevice(log: seq<Issue>, m: Memory, states0: seq<State>, steps0: seq<Step>)
    returns (states: seq<State>, steps: seq<Step>)
    requires Run(log, m, states0, steps0) && Issued(log, states0[|steps0|])
    ensures Run(log, m, states, steps) && Over(log, states[|steps|]) && states0 <= states
    ensures forall l: Loc | (forall c | c in states0[|steps0|].queue :: !In(l, c.dst, c.n)) ::
              states[|steps|].mem(l) == states0[|steps0|].mem(l)
    decreases |states0[|steps0|].queue|
  {
    var s := states0[|steps0|];
    if s.queue == [] {
      states, steps := states0, steps0;
    } else {
      var s' := State(Apply(s.mem, s.queue[0]), s.queue[1..], s.next);
      Append(log, m, states0, steps0, Device, s');
      states, steps := ThenDevice(log, m, states0 + [s'], steps0 + [Device]);
      assert s.queue[0] in s.queue && forall c | c in s'.queue :: c in s.queue;
    }
  }

  lemma {:induction false} WaitingFromLog(log: seq<Issue>, n: nat)
    requires n <= |log|
    ensures forall c | c in Waiting(log, n) :: ByStream(c) in log
  {
    if n > 0 {
      WaitingFromLog(log, n - 1);
    }
  }

  /** The host's own copies leave l alone. */
  lemma {:induction false} HostLeaves(log: seq<Issue>, m: Memory, n: nat, l: Loc)
    requires n <= |log| && forall op | op in log && op.ByHost? :: !Writes(op, l)
    ensures HostMemory(log, m, n)(l) == m(l)
  {
    if n > 0 {
      HostLeaves(log, m, n - 1, l);
      assert log[n - 1] in log;
    }
  }

  /** The host copies from a place that it leaves alone. */
  lemma {:induction false} HostBrings(log: seq<Issue>, m: Memory, n: nat, l: Loc, op: Issue)
    requires n <= |log| && op.ByHost? && OnlyBy(log, l, op)
    requires forall o | o in log && o.ByHost? :: !Writes(o, Source(op, l))
    ensures op in log[..n] ==> HostMemory(log, m, n)(l) == m(Source(op, l))
  {
    if n > 0 {
      HostBrings(log, m, n - 1, l, op);
      HostLeaves(log, m, n - 1, Source(op, l));
      assert log[..n] == log[..n - 1] + [log[n - 1]] && log[n - 1] in log;
    }
  }

  /** When the host copies what the stream is to bring, there is a run in which it finds,
      for good, what was there before. */
  lemma {:induction false} HostOvertakes(log: seq<Issue>, m: Memory, l: Loc, first: Issue, second: Issue)
    returns (states: seq<State>, steps: seq<Step>, k: nat)
    requires OnlyBy(log, l, second) && second in log && second.ByHost?
    requires OnlyBy(log, Source(second, l), first) && first.ByStream?
    ensures Run(log, m, states, steps) && Over(log, states[|steps|]) && states[|steps|].mem(l) == m(Source(second, l))
    ensures k < |states| && Issued(log, states[k]) && states[k].mem(l) == m(Source(second, l))
  {
    hide HostMemory, Waiting, Next;
    HostBrings(log, m, |log|, l, second);
    assert log[..|log|] == log;
    WaitingFromLog(log, |log|);
    var states0, steps0 := HostFirst(log, m, |log|);
    states, steps := ThenDevice(log, m, states0, steps0);
    k := |log|;
    assert forall c | c in Waiting(log, |log|) :: !In(l, c.dst, c.n) by {
      forall c | c in Waiting(log, |log|)
        ensures !In(l, c.dst, c.n)
      {
        assert ByStream(c) in log && (Writes(ByStream(c), l) ==> ByStream(c) == second);
      }
    }
  }

  /** A run to the end. */
  lemma {:induction false} SomeRun(log: seq<Issue>, m: Memory) returns (states: seq<State>, steps: seq<Step>)
    ensures Run(log, m, states, steps) && Over(log, states[|steps|])
  {
    states, steps := HostFirst(log, m, |log|);
    states, steps := ThenDevice(log, m, states, steps);
  }

  /** When the host is through, nothing that was left to the stream need be there. */
  lemma {:induction false} NotYet(log: seq<Issue>, m: Memory, l: Loc, op: Issue)
    returns (states: seq<State>, steps: seq<Step>)
    requires OnlyBy(log, l, op) && op.ByStream?
    ensures Run(log, m, states, steps) && Issued(log, states[|steps|]) && states[|steps|].mem(l) == m(l)
  {
    hide HostMemory, Waiting, Next;
    states, steps := HostFirst(log, m, |log|);
    HostLeaves(log, m, |log|, l);
  }
}

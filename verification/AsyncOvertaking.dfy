/** When the asynchronous branch delivers a window that it gets to send: exactly if the
    send cannot overtake the copies into the staging region. */
module AsyncOvertaking {
  import opened DeviceMemory
  import opened Responses
  import opened Delivery
  import opened InputIteration
  import opened InputBytes
  import opened GatherViews
  import opened AsyncStaging
  import opened AsyncRuns

  // ---------------------------------------------------------------------------
  // A single flush
  // ---------------------------------------------------------------------------

  /** Every task is taken, and the counter starts at their number. */
  predicate Completes(f: Flush) {
    |f.added| == Min(|f.bufs|, f.workers) && forall k | 0 <= k < |f.added| :: f.added[k]
  }

  /** A window as the collector flushes it; only what is empty may be null. */
  ghost predicate Alone(f: Flush, r: Regions, count: nat) {
    && f.Valid() && Completes(f) && r.Valid() && Window(f.bufs, f.obs, f.base, f.t, r, count)
    && (forall b | b in f.bufs && b.size > 0 :: !b.ptr.IsNull()) && !f.t.ptr.Plus(f.base).IsNull()
  }

  ghost function AllLive(count: nat): seq<bool> {
    seq(count, _ => true)
  }

  /** Nothing has happened yet, and the tensor buffer is ready. */
  ghost function Before(m: Memory, f: Flush, r: Regions, count: nat): State {
    State(View(m, [], [], AllLive(count), r), Ready(false, true), {}, [], Free, f.obs)
  }

  /** A run of this flush alone, at whose end there is nothing left to do. */
  ghost predicate AloneRun(c: Config, m: Memory, f: Flush, r: Regions, count: nat, states: seq<State>, steps: seq<Step>) {
    && Begun(c, m, f, r, count, states, steps)
    && states[|steps|].others == [] && forall x | 0 <= x < |states[|steps|].jobs| :: states[|steps|].jobs[x].phase.Sent?
  }

  ghost predicate Begun(c: Config, m: Memory, f: Flush, r: Regions, count: nat, states: seq<State>, steps: seq<Step>) {
    && Run(c, m, f.obs, states, steps) && states[0] == Before(m, f, r, count)
    && forall i | 0 <= i < |steps| && steps[i].Open? :: steps[i].f == f
  }

  ghost predicate FlushSettled(m: Memory, f: Flush, s: State) {
    forall ob | ob in f.obs :: Settled(ob, Drain(s.v.mem, s.v.stream), m, s.v.live)
  }

  /** The flush delivers its window from every memory and in every schedule exactly if
      it is orderly. */
  lemma {:induction false} DeliversExactlyWhen(c: Config, f: Flush, r: Regions, count: nat)
    requires Alone(f, r, count)
    ensures (forall m: Memory, states: seq<State>, steps: seq<Step> | AloneRun(c, m, f, r, count, states, steps) ::
               FlushSettled(m, f, states[|steps|]))
            <==> f.Orderly(c)
  {
    hide Next, Initial, FlushSettled, Window, Regions.Valid, Before;
    if f.Orderly(c) {
      forall m: Memory, states: seq<State>, steps: seq<Step> | AloneRun(c, m, f, r, count, states, steps)
        ensures FlushSettled(m, f, states[|steps|])
      {
        AllDelivered(c, m, f.obs, states, steps);
        assert FlushSettled(m, f, states[|steps|]) by { IsSettled(m, f, states[|steps|]); }
      }
    } else {
      var b :| b in f.bufs && b.size > 0 && c.Streams(b);
      var j :| 0 <= j < |f.bufs| && f.bufs[j] == b;
      var m: Memory := (l: Loc) => if l.space.Staging? then 1 else 0;
      StagingDiffers(f, r, count, m, j);
      var states, steps := SendOvertakes(c, m, f, r, count, j);
    }
  }

  /** A single buffer that is to go to a tensor in host memory, with any number of workers,
      is a flush that is not orderly exactly if the device may be used, and the buffer is in
      GPU memory or all copies go to the stream. */
  lemma {:induction false} DeviceBufferOvertaken(config: Config, p: Loc, t: Tensor, serial: nat, workers: nat)
    returns (f: Flush, r: Regions)
    requires p.space != t.ptr.space && !p.space.Staging? && !p.IsNull() && t.size > 0 && workers > 1
    requires t.ptr.space.Type() != Gpu && !t.ptr.IsNull() && !t.ptr.space.Staging?
    ensures f.bufs == [Chunk(p, t.size, 0, 0)] && f.t == t && Alone(f, r, 1)
    ensures f.Orderly(config) <==> !config.gpuEnabled || (!config.copyOnStream && p.space.Type() != Gpu)
  {
    var c := Chunk(p, t.size, 0, 0);
    CompletesExactlyWhen(|[c]|, workers, Stride(|[c]|, workers));
    f := Flush([c], [Obligation(Copy(p, t.ptr, t.size), 0, 0)], t, 0, serial, workers, [true]);
    r := Regions(iset l | In(l, p, t.size), iset l | In(l, t.ptr, t.size), iset l | In(l, t.ptr, t.size));
    hide TaskCount;
    assert f.bufs[..0] == [] && c in f.bufs && Sizes(f.bufs) == Sizes(f.bufs[..0]) + c.size;
  }

  lemma {:induction false} IsSettled(m: Memory, f: Flush, s: State)
    requires forall ob | ob in f.obs :: Settled(ob, Drain(s.v.mem, s.v.stream), m, s.v.live)
    ensures FlushSettled(m, f, s)
  {}

  lemma {:induction false} StagingDiffers(f: Flush, r: Regions, count: nat, m: Memory, j: nat)
    requires Alone(f, r, count) && j < |f.bufs| && f.bufs[j].size > 0
    requires forall l: Loc :: m(l) == if l.space.Staging? then 1 else 0
    ensures m(f.bufs[j].ptr) != m(Place(f, j))
  {
    WindowItem(f.bufs, f.obs, f.base, f.t, r, count, j);
    assert In(f.bufs[j].ptr, f.bufs[j].ptr, f.bufs[j].size);
  }

  // ---------------------------------------------------------------------------
  // A run in which the region is sent while a copy into it is outstanding
  // ---------------------------------------------------------------------------

  /** Where chunk j goes in the staging region. */
  function Place(f: Flush, j: nat): Loc
    requires j < |f.bufs|
  {
    StageCopy(f.bufs, f.serial, j).dst
  }

  /** The flush is under way, nothing has failed, and the host finds at chunk j's place
      what was there before. */
  ghost predicate Lagging(c: Config, m: Memory, f: Flush, r: Regions, count: nat, j: nat, s: State)
    requires j < |f.bufs|
  {
    && s.main.Free? && s.others == [] && |s.jobs| == 1 && s.jobs[0].f == f && Sound(s.jobs[0])
    && (s.jobs[0].phase.Copying? || s.jobs[0].phase.Testing? || s.jobs[0].phase.Issuing?)
    && s.ready == Ready(false, true) && s.v.live == AllLive(count) && s.v.deferred == [] && s.v.r == r
    && (forall op | op in s.v.stream :: op.dst.space.Staging?)
    && s.v.mem(Place(f, j)) == m(Place(f, j))
  }

  lemma {:induction false} Append(c: Config, m: Memory, f: Flush, r: Regions, count: nat, states: seq<State>,
                                  steps: seq<Step>, a: Step, s: State)
    requires Begun(c, m, f, r, count, states, steps) && Next(c, states[|steps|], a, s) && (a.Open? ==> a.f == f)
    ensures Begun(c, m, f, r, count, states + [s], steps + [a]) && (states + [s])[|steps| + 1] == s
  {
    hide Next, Initial, Before;
    var states', steps' := states + [s], steps + [a];
    forall i | 0 <= i < |steps'|
      ensures Next(c, states'[i], steps'[i], states'[i + 1])
    {
      if i < |steps| {
        assert states'[i] == states[i] && states'[i + 1] == states[i + 1] && steps'[i] == steps[i];
      }
    }
  }

  /** From every memory that has something else in the staging region. */
  lemma {:induction false} SendOvertakes(c: Config, m: Memory, f: Flush, r: Regions, count: nat, j: nat)
    returns (states: seq<State>, steps: seq<Step>)
    requires Alone(f, r, count) && f.t.ptr.space.Type() != Gpu && j < |f.bufs| && f.bufs[j].size > 0
    requires c.Streams(f.bufs[j]) && m(f.bufs[j].ptr) != m(Place(f, j))
    ensures AloneRun(c, m, f, r, count, states, steps) && !FlushSettled(m, f, states[|steps|])
  {
    hide Next, Lagging, FlushSettled, Before, Window, Initial;
    var s1 := Opening(c, m, f, r, count, j);
    var s0 := Before(m, f, r, count);
    assert Begun(c, m, f, r, count, [s0], []) by { Start(c, m, f, r, count); }
    Append(c, m, f, r, count, [s0], [], Open(f), s1);
    states, steps := Finish(c, m, f, r, count, j, [s0] + [s1], [] + [Open(f)]);
  }

  lemma {:induction false} Start(c: Config, m: Memory, f: Flush, r: Regions, count: nat)
    requires Alone(f, r, count)
    ensures Begun(c, m, f, r, count, [Before(m, f, r, count)], [])
  {
    hide Sizes;
    var v := View(m, [], [], AllLive(count), r);
    assert v.Queue() == [];
    forall ob | ob in f.obs
      ensures ob.first <= ob.last < count
    {
      var i :| 0 <= i < |f.obs| && f.obs[i] == ob;
      WindowItem(f.bufs, f.obs, f.base, f.t, r, count, i);
    }
  }

  lemma {:induction false} Opening(c: Config, m: Memory, f: Flush, r: Regions, count: nat, j: nat) returns (s: State)
    requires Alone(f, r, count) && j < |f.bufs|
    ensures Next(c, Before(m, f, r, count), Open(f), s) && Lagging(c, m, f, r, count, j, s)
    ensures |s.jobs| == 1 && s.jobs[0].phase.Copying?
  {
    hide Window, TaskStart, TaskCount, Sound, Sizes;
    var s0 := Before(m, f, r, count);
    var job := Job(f, seq(|f.added|, _ => 0), seq(|f.added|, _ => false), Min(|f.bufs|, f.workers), Copying);
    s := State(s0.v, s0.ready, {f.serial}, [job], Free, []);
    NewSound(f);
    assert f.obs + [] == f.obs;
    assert s0.jobs + [job] == s.jobs;
  }

  /** Every chunk is copied as it can be, every task counts down, and the region is sent. */
  lemma {:induction false} Finish(c: Config, m: Memory, f: Flush, r: Regions, count: nat, j: nat, states0: seq<State>,
                                  steps0: seq<Step>)
    returns (states: seq<State>, steps: seq<Step>)
    requires Alone(f, r, count) && f.t.ptr.space.Type() != Gpu && j < |f.bufs| && f.bufs[j].size > 0
    requires c.Streams(f.bufs[j]) && m(f.bufs[j].ptr) != m(Place(f, j))
    requires Begun(c, m, f, r, count, states0, steps0) && Lagging(c, m, f, r, count, j, states0[|steps0|])
    requires !states0[|steps0|].jobs[0].phase.Sent?
    ensures AloneRun(c, m, f, r, count, states, steps) && !FlushSettled(m, f, states[|steps|])
    decreases ToDo(states0[|steps0|].jobs[0]), Rank(states0[|steps0|].jobs[0].phase)
  {
    hide Next, Initial, Before, FlushSettled, Alone, ToDo, Sound;
    var s := states0[|steps0|];
    ToDoNatural(s.jobs[0]);
    if s.jobs[0].phase.Issuing? {
      var s' := Sending(c, m, f, r, count, j, s);
      Append(c, m, f, r, count, states0, steps0, Send(0, AtOnce), s');
      states, steps := states0 + [s'], steps0 + [Send(0, AtOnce)];
    } else {
      var a, s' := Working(c, m, f, r, count, j, s);
      Append(c, m, f, r, count, states0, steps0, a, s');
      states, steps := Finish(c, m, f, r, count, j, states0 + [s'], steps0 + [a]);
    }
  }

  // ---------------------------------------------------------------------------
  // Its steps
  // ---------------------------------------------------------------------------

  ghost function Copies(done: seq<nat>): nat {
    if done == [] then 0 else Copies(done[..|done| - 1]) + done[|done| - 1]
  }

  lemma {:induction false} CopiesMore(done: seq<nat>, k: nat)
    requires k < |done|
    ensures Copies(done[k := done[k] + 1]) == Copies(done) + 1
  {
    var d := done[k := done[k] + 1];
    if k == |done| - 1 {
      assert d[..k] == done[..k];
    } else {
      CopiesMore(done[..|done| - 1], k);
      assert d[..|d| - 1] == done[..|done| - 1][k := done[k] + 1];
    }
  }

  lemma {:induction false} CopiesAtMost(job: Job, n: nat)
    requires Sound(job) && n <= |job.done|
    ensures Copies(job.done[..n]) <= job.f.First(n) <= |job.f.bufs|
  {
    hide Stride;
    if n > 0 {
      CopiesAtMost(job, n - 1);
      assert job.done[..n][..n - 1] == job.done[..n - 1];
    }
  }

  lemma {:induction false} JobShape(job: Job)
    requires Sound(job)
    ensures Shaped(job)
  {}

  /** What is left of the tasks' work. */
  ghost function ToDo(job: Job): int {
    |job.f.bufs| - Copies(job.done) + |job.finished| - Finished(job.finished)
  }

  function Rank(p: Phase): nat {
    if p.Copying? then 2 else if p.Testing? then 1 else 0
  }

  lemma {:induction false} ToDoNatural(job: Job)
    requires Sound(job)
    ensures ToDo(job) >= 0
  {
    CopiesAtMost(job, |job.done|);
    FinishedAtMost(job.finished);
    assert job.done[..|job.done|] == job.done;
  }

  /** The next step of the tasks, or of the thread that prepares the send. */
  lemma {:induction false} Working(c: Config, m: Memory, f: Flush, r: Regions, count: nat, j: nat, s: State)
    returns (a: Step, s': State)
    requires Alone(f, r, count) && j < |f.bufs| && f.bufs[j].size > 0 && c.Streams(f.bufs[j])
    requires Lagging(c, m, f, r, count, j, s) && !s.jobs[0].phase.Issuing? && !s.jobs[0].phase.Sent?
    ensures Next(c, s, a, s') && !a.Open? && Lagging(c, m, f, r, count, j, s') && !s'.jobs[0].phase.Sent?
    ensures || ToDo(s'.jobs[0]) < ToDo(s.jobs[0])
            || (ToDo(s'.jobs[0]) == ToDo(s.jobs[0]) && Rank(s'.jobs[0].phase) < Rank(s.jobs[0].phase))
  {
    hide Sound, Flush.First, Window, ToDo, BufferStaged;
    var job := s.jobs[0];
    JobShape(job);
    if job.phase.Testing? {
      a, s' := Prepare(0), s.(jobs := [job.(phase := Issuing)]);
      Preparing(c, m, f, r, count, j, s, s');
    } else if k: nat :| k < |f.added| && f.First(k) + job.done[k] < f.First(k + 1) {
      a := CopyNext(0, k, true);
      s' := CopyingOn(c, m, f, r, count, j, s, k);
    } else {
      var k := SomeUnfinished(f, r, count, job);
      a := CountDown(0, k);
      s' := CountingDown(c, m, f, r, count, j, s, k);
    }
  }

  lemma {:induction false} Preparing(c: Config, m: Memory, f: Flush, r: Regions, count: nat, j: nat, s: State, s': State)
    requires j < |f.bufs| && Lagging(c, m, f, r, count, j, s) && s.jobs[0].phase.Testing?
    requires s' == s.(jobs := [s.jobs[0].(phase := Issuing)])
    ensures Next(c, s, Prepare(0), s') && Lagging(c, m, f, r, count, j, s')
    ensures ToDo(s'.jobs[0]) == ToDo(s.jobs[0])
  {
    hide Sound;
    var job := s.jobs[0];
    PhaseSound(job, Issuing);
    assert s.jobs[0 := job.(phase := Issuing)] == s'.jobs;
    assert Prepared(s.ready, job.phase, s.ready, Issuing);
  }

  /** When every task has copied its chunks but the counter is not zero, some task has
      not counted down. */
  lemma {:induction false} SomeUnfinished(f: Flush, r: Regions, count: nat, job: Job) returns (k: nat)
    requires Alone(f, r, count) && job.f == f && Sound(job) && job.phase.Copying?
    requires forall i: nat | i < |f.added| :: f.First(i) + job.done[i] >= f.First(i + 1)
    ensures k < |f.added| && !job.finished[k] && f.First(k) + job.done[k] == f.First(k + 1)
  {
    FinishedAtMost(job.finished);
    k :| k < |job.finished| && !job.finished[k];
  }

  lemma {:induction false} CountingDown(c: Config, m: Memory, f: Flush, r: Regions, count: nat, j: nat, s: State, k: nat)
    returns (s': State)
    requires Alone(f, r, count) && j < |f.bufs| && Lagging(c, m, f, r, count, j, s) && s.jobs[0].phase.Copying?
    requires k < |f.added| && !s.jobs[0].finished[k] && f.First(k) + s.jobs[0].done[k] == f.First(k + 1)
    ensures Next(c, s, CountDown(0, k), s') && Lagging(c, m, f, r, count, j, s')
    ensures ToDo(s'.jobs[0]) < ToDo(s.jobs[0]) && !s'.jobs[0].phase.Sent?
  {
    hide Flush.First, Window;
    var job := s.jobs[0];
    var job' := job.(counter := job.counter - 1, finished := job.finished[k := true],
                     phase := if job.counter == 1 then Testing else job.phase);
    s' := s.(jobs := [job']);
    CountSound(job, k);
    FinishedMore(job.finished, k);
    assert s.jobs[0 := job'] == s'.jobs;
  }

  /** A task copies its next chunk, through the stream if it has to. */
  lemma {:induction false} CopyingOn(c: Config, m: Memory, f: Flush, r: Regions, count: nat, j: nat, s: State, k: nat)
    returns (s': State)
    requires Alone(f, r, count) && j < |f.bufs| && f.bufs[j].size > 0 && c.Streams(f.bufs[j])
    requires Lagging(c, m, f, r, count, j, s) && s.jobs[0].phase.Copying?
    requires k < |f.added| && f.First(k) + s.jobs[0].done[k] < f.First(k + 1)
    ensures Next(c, s, CopyNext(0, k, true), s') && Lagging(c, m, f, r, count, j, s')
    ensures ToDo(s'.jobs[0]) < ToDo(s.jobs[0]) && !s'.jobs[0].phase.Sent?
  {
    hide Flush.First, Window, Sound, Finished, Flush.Part, StageCopy, Apply;
    var job := s.jobs[0];
    JobShape(job);
    var i := f.First(k) + job.done[k];
    var job' := job.(done := job.done[k := job.done[k] + 1]);
    PartIs(f, k, i);
    var part := StageCopy(f.bufs, f.serial, i);
    var v' := if c.Streams(f.bufs[i]) then s.v.(stream := s.v.stream + [part]) else s.v.(mem := Apply(s.v.mem, part));
    s' := s.(v := v', jobs := [job']);
    CopySound(job, k);
    CopiesMore(job.done, k);
    ChunkPossible(c, f, r, count, j, i);
    OtherPlace(c, f, s.v.mem, i, j);
    assert s.jobs[0 := job'] == s'.jobs;
  }

  lemma {:induction false} ChunkPossible(c: Config, f: Flush, r: Regions, count: nat, j: nat, i: nat)
    requires Alone(f, r, count) && j < |f.bufs| && c.Streams(f.bufs[j]) && i < |f.bufs|
    ensures c.Possible(StageCopy(f.bufs, f.serial, i)) && StageCopy(f.bufs, f.serial, i).dst.space.Staging?
    ensures f.t.ptr.space.Type() != Gpu ==> c.Possible(f.Whole())
  {
    hide Window;
    assert f.bufs[i] in f.bufs;
  }

  /** A chunk that does not stream is not chunk j, and leaves its place alone. */
  lemma {:induction false} OtherPlace(c: Config, f: Flush, m: Memory, i: nat, j: nat)
    requires i < |f.bufs| && j < |f.bufs| && f.bufs[j].size > 0 && c.Streams(f.bufs[j])
    ensures !c.Streams(f.bufs[i]) ==> Apply(m, StageCopy(f.bufs, f.serial, i))(Place(f, j)) == m(Place(f, j))
  {
    if i != j {
      PartsApart(f, j, i);
      assert In(Place(f, j), Place(f, j), f.bufs[j].size);
    }
  }

  /** The send: the host copies what it finds, and what the stream brings later does not
      reach the tensor. */
  lemma {:induction false} Sending(c: Config, m: Memory, f: Flush, r: Regions, count: nat, j: nat, s: State)
    returns (s': State)
    requires Alone(f, r, count) && f.t.ptr.space.Type() != Gpu && j < |f.bufs| && f.bufs[j].size > 0
    requires c.Streams(f.bufs[j]) && m(f.bufs[j].ptr) != m(Place(f, j))
    requires Lagging(c, m, f, r, count, j, s) && s.jobs[0].phase.Issuing?
    ensures Next(c, s, Send(0, AtOnce), s') && !FlushSettled(m, f, s')
    ensures s'.others == [] && forall x | 0 <= x < |s'.jobs| :: s'.jobs[x].phase.Sent?
  {
    hide Sound, Window, Apply, Sizes;
    var whole := f.Whole();
    s' := s.(v := s.v.(mem := Apply(s.v.mem, whole), r := r.Take(whole.dst, whole.n)),
             jobs := s.jobs[0 := s.jobs[0].(phase := Sent)]);
    ChunkPossible(c, f, r, count, j, j);
    assert s'.jobs == [s.jobs[0].(phase := Sent)];
    Missed(m, f, r, count, j, s.v.mem, s.v.stream);
  }

  lemma {:induction false} Missed(m: Memory, f: Flush, r: Regions, count: nat, j: nat, m1: Memory, stream: seq<Copy>)
    requires Alone(f, r, count) && j < |f.bufs| && f.bufs[j].size > 0 && m(f.bufs[j].ptr) != m1(Place(f, j))
    requires forall op | op in stream :: op.dst.space.Staging?
    ensures f.obs[j] in f.obs && !Settled(f.obs[j], Drain(Apply(m1, f.Whole()), stream), m, AllLive(count))
  {
    hide Drain;
    var l := f.t.ptr.Plus(f.base).Plus(Sizes(f.bufs[..j]));
    WindowItem(f.bufs, f.obs, f.base, f.t, r, count, j);
    SizesStep(f.bufs, j);
    assert In(l, f.Whole().dst, f.Whole().n) && Shift(l, f.Whole().dst, f.Whole().src) == Place(f, j);
    DrainElsewhere(Apply(m1, f.Whole()), stream, l);
    assert In(l, f.obs[j].copy.dst, f.obs[j].copy.n) && Shift(l, f.obs[j].copy.dst, f.obs[j].copy.src) == f.bufs[j].ptr;
    assert AllLive(count)[f.bufs[j].first];
  }

  lemma {:induction false} DrainElsewhere(m: Memory, ops: seq<Copy>, l: Loc)
    requires !l.space.Staging? && forall op | op in ops :: op.dst.space.Staging?
    ensures Drain(m, ops)(l) == m(l)
  {
    if ops != [] {
      var before, last := ops[..|ops| - 1], ops[|ops| - 1];
      DrainElsewhere(m, before, l);
      assert last in ops && !In(l, last.dst, last.n);
      assert Apply(Drain(m, before), last)(l) == Drain(m, before)(l);
    }
  }
}

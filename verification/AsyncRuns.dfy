/** The asynchronous staging branch at work.  Several flushes and the collector's own
    thread run side by side; the worker tasks of a flush fill its staging region, and
    the last of them waits for the tensor buffer and sends the region to the tensor. */
module AsyncRuns {
  import opened DeviceMemory
  import opened Responses
  import opened Delivery
  import opened InputIteration
  import opened InputBytes
  import opened GatherViews
  import opened AsyncStaging

  // ---------------------------------------------------------------------------
  // What runs
  // ---------------------------------------------------------------------------

  datatype Config = Config(gpuEnabled: bool, copyOnStream: bool) {
    /** A copy of the chunk into staging memory goes to the stream. */
    predicate Streams(c: Chunk) {
      gpuEnabled && (copyOnStream || c.ptr.space.Type() == Gpu)
    }

    predicate OnDevice(op: Copy) {
      op.src.space.Type() == Gpu || op.dst.space.Type() == Gpu
    }

    /** The copy can succeed. */
    predicate Possible(op: Copy) {
      && (op.n > 0 ==> !op.src.IsNull() && !op.dst.IsNull())
      && (OnDevice(op) ==> gpuEnabled)
    }
  }

  /** One flush: the pending window and its obligations, the staging region, and
      which tasks the work queue takes. */
  datatype Flush = Flush(bufs: seq<Chunk>, obs: seq<Obligation>, t: Tensor, base: nat, serial: nat, workers: nat,
                         added: seq<bool>) {
    predicate Valid() {
      bufs != [] && workers > 1 && |added| == TaskCount(|bufs|, workers)
    }

    function First(k: nat): nat
      requires bufs != [] && workers > 0
    {
      TaskStart(|bufs|, workers, k)
    }

    /** The copy task k makes of chunk j, at the offset it has got to. */
    function Part(k: nat, j: nat): Copy
      requires bufs != [] && workers > 0 && First(k) <= j < |bufs|
    {
      Copy(bufs[j].ptr, StagingAt(serial, TaskOf(bufs, workers, k).offset + Sizes(bufs[First(k)..j])), bufs[j].size)
    }

    /** The copy of the filled region to the tensor. */
    function Whole(): Copy {
      Copy(StagingAt(serial, 0), t.ptr.Plus(base), Sizes(bufs))
    }

    predicate InRefusedTask(j: nat)
      requires bufs != [] && workers > 0
    {
      exists k | 0 <= k < |added| :: !added[k] && First(k) <= j < First(k + 1)
    }

    /** The send cannot overtake a copy into the region: it goes to the stream itself,
        or no copy of any bytes does. */
    predicate Orderly(c: Config) {
      t.ptr.space.Type() == Gpu || forall b | b in bufs && b.size > 0 :: !c.Streams(b)
    }
  }

  /** Who is about to write a tensor first tests whether there is an event to wait for,
      waits for it, clears it, and then issues the copy. */
  datatype Phase = Copying | Testing | Waiting | Clearing | Issuing | Sent

  /** The pointer to the tensor buffer's ready event, and whether the event has fired. */
  datatype Ready = Ready(armed: bool, fired: bool)

  /** A flush under way: how many chunks each task has copied, which tasks have counted
      down, the counter, and how far the send has got. */
  datatype Job = Job(f: Flush, done: seq<nat>, finished: seq<bool>, counter: nat, phase: Phase)

  /** The collector's thread is between two copies, or about to copy one pending
      obligation straight to its tensor. */
  datatype Main = Free | Busy(i: nat, phase: Phase)

  /** `others` are the obligations that no flush has taken on. */
  datatype State = State(v: View, ready: Ready, owned: set<nat>, jobs: seq<Job>, main: Main, others: seq<Obligation>)

  datatype Step =
    | Fire
    | Open(f: Flush)
    | CopyNext(x: nat, k: nat, ok: bool)
    | CountDown(x: nat, k: nat)
    | Prepare(x: nat)
    | Send(x: nat, how: Outcome)
    | Begin(i: nat)
    | MainPrepare
    | MainCopy(how: Outcome)
    | Work

  // ---------------------------------------------------------------------------
  // Steps
  // ---------------------------------------------------------------------------

  /** One step of the protocol.  A thread that found an event waits for whatever the
      pointer holds by then, and there is nothing to wait for when it is null. */
  ghost predicate Prepared(r: Ready, p: Phase, r': Ready, p': Phase) {
    match p
    case Testing => r' == r && p' == (if r.armed then Waiting else Issuing)
    case Waiting => (r.armed ==> r.fired) && r' == r && p' == Clearing
    case Clearing => r' == r.(armed := false) && p' == Issuing
    case _ => false
  }

  ghost predicate LostInRefusedTasks(f: Flush, live0: seq<bool>, live1: seq<bool>)
    requires f.bufs != [] && f.workers > 0
  {
    && OnlyNulled(live0, live1)
    && (forall j | 0 <= j < |f.bufs| && f.InRefusedTask(j) :: AllNull(live1, f.bufs[j].first, f.bufs[j].last))
    && forall i: nat | i < |live0| && live0[i] && !live1[i] :: LostBy(f, i)
  }

  ghost predicate LostBy(f: Flush, i: nat)
    requires f.bufs != [] && f.workers > 0
  {
    exists j | 0 <= j < |f.bufs| :: f.InRefusedTask(j) && f.bufs[j].first <= i <= f.bufs[j].last
  }

  /** The collector's thread hands a window to the tasks, under the conditions that the
      collector flushes it; responses of chunks in tasks that are refused fail. */
  ghost predicate Opened(s: State, f: Flush, s': State) {
    && s.main.Free? && f.Valid() && f.serial !in s.owned
    && Window(f.bufs, f.obs, f.base, f.t, s.v.r, |s.v.live|)
    && s.others == f.obs + s'.others
    && (forall o | o in s'.others :: Apart(o.copy.dst, o.copy.n, f.t.ptr.Plus(f.base), Sizes(f.bufs)))
    && s' == State(s.v.(live := s'.v.live), s.ready, s.owned + {f.serial},
                   s.jobs + [Job(f, seq(|f.added|, _ => 0), seq(|f.added|, _ => false), Min(|f.bufs|, f.workers), Copying)],
                   Free, s'.others)
    && LostInRefusedTasks(f, s.v.live, s'.v.live)
  }

  ghost predicate Shaped(job: Job) {
    job.f.Valid() && |job.done| == |job.finished| == |job.f.added|
  }

  /** Task k of flush x copies its next chunk. */
  ghost predicate Copied(c: Config, s: State, x: nat, k: nat, ok: bool, s': State) {
    && x < |s.jobs| && Shaped(s.jobs[x]) && k < |s.jobs[x].f.added|
    && var job := s.jobs[x];
       var j := job.f.First(k) + job.done[k];
       && job.f.added[k] && j < job.f.First(k + 1) && j < |job.f.bufs|
       && BufferStaged(s.v, s'.v, job.f.Part(k, j), job.f.bufs[j], ok) && (ok ==> c.Possible(job.f.Part(k, j)))
       && (s'.v.stream != s.v.stream <==> ok && c.Streams(job.f.bufs[j]))
       && s' == s.(v := s'.v, jobs := s.jobs[x := job.(done := job.done[k := job.done[k] + 1])])
  }

  /** Task k of flush x has copied all its chunks and decrements the counter; whoever
      brings it to zero goes on to send the region. */
  ghost predicate CountedDown(s: State, x: nat, k: nat, s': State) {
    && x < |s.jobs| && Shaped(s.jobs[x]) && k < |s.jobs[x].f.added|
    && var job := s.jobs[x];
       && job.f.added[k] && !job.finished[k] && job.f.First(k) + job.done[k] == job.f.First(k + 1) && job.counter > 0
       && s' == s.(jobs := s.jobs[x := job.(counter := job.counter - 1, finished := job.finished[k := true],
                                            phase := if job.counter == 1 then Testing else job.phase)])
  }

  /** The filled region goes to the tensor: at once if that is in host memory, else on
      the stream; or all responses of the window fail. */
  ghost predicate Dispatched(c: Config, s: State, x: nat, how: Outcome, s': State) {
    && x < |s.jobs| && s.jobs[x].phase.Issuing? && !how.Later?
    && var f := s.jobs[x].f;
       && WindowCopied(s.v, s'.v, f.Whole(), f.bufs, how) && (!how.Refused? ==> c.Possible(f.Whole()))
       && (how.AtOnce? ==> f.t.ptr.space.Type() != Gpu) && (how.OnStream? ==> f.t.ptr.space.Type() == Gpu)
       && s' == s.(v := s'.v, jobs := s.jobs[x := s.jobs[x].(phase := Sent)])
  }

  /** A direct copy, done, queued or refused. */
  ghost predicate DirectlyCopied(v0: View, v1: View, ob: Obligation, how: Outcome) {
    && OnlyNulled(v0.live, v1.live) && v1.deferred == v0.deferred && v1.r == v0.r.Take(ob.copy.dst, ob.copy.n)
    && match how
       case AtOnce => v1.mem == Apply(v0.mem, ob.copy) && v1.stream == v0.stream
       case OnStream => v1.mem == v0.mem && v1.stream == v0.stream + [ob.copy]
       case Refused => v1.mem == v0.mem && v1.stream == v0.stream && AllNull(v1.live, ob.first, ob.last)
       case Later => false
  }

  /** The device performs the oldest copy of its stream. */
  ghost predicate Worked(v0: View, v1: View) {
    v0.stream != [] && v1 == v0.(mem := Apply(v0.mem, v0.stream[0]), stream := v0.stream[1..])
  }

  ghost predicate Next(c: Config, s: State, a: Step, s': State) {
    match a
    case Work => Worked(s.v, s'.v) && s' == s.(v := s'.v)
    case Fire => s' == s.(ready := s.ready.(fired := true))
    case Open(f) => Opened(s, f, s')
    case CopyNext(x, k, ok) => Copied(c, s, x, k, ok, s')
    case CountDown(x, k) => CountedDown(s, x, k, s')
    case Prepare(x) =>
      && x < |s.jobs|
      && var job := s.jobs[x];
         exists r, p | Prepared(s.ready, job.phase, r, p) :: s' == s.(ready := r, jobs := s.jobs[x := job.(phase := p)])
    case Send(x, how) => Dispatched(c, s, x, how, s')
    case Begin(i) =>
      && s.main.Free? && i < |s.others| && Placeable(s.v, s.others[i]) && s' == s.(main := Busy(i, Testing))
    case MainPrepare =>
      s.main.Busy? && exists r, p | Prepared(s.ready, s.main.phase, r, p) :: s' == s.(ready := r, main := Busy(s.main.i, p))
    case MainCopy(how) =>
      && s.main.Busy? && s.main.phase.Issuing? && s.main.i < |s.others|
      && DirectlyCopied(s.v, s'.v, s.others[s.main.i], how)
      && (!how.Refused? ==> c.Possible(s.others[s.main.i].copy))
      && (how.OnStream? ==> c.gpuEnabled && (c.copyOnStream || c.OnDevice(s.others[s.main.i].copy)))
      && (how.AtOnce? ==> !(c.gpuEnabled && (c.copyOnStream || c.OnDevice(s.others[s.main.i].copy))))
      && s' == s.(v := s'.v, main := Free, others := s.others[..s.main.i] + s.others[s.main.i + 1..])
  }

  /** The obligation's bytes are input bytes, and nobody has been given their place. */
  ghost predicate Placeable(v: View, ob: Obligation) {
    Within(ob.copy.src, ob.copy.n, v.r.inputs) && Within(ob.copy.dst, ob.copy.n, v.r.unwritten)
  }

  /** A gather whose chunks are all still to be copied. */
  ghost predicate Initial(orig: Memory, obls: seq<Obligation>, s: State) {
    && s.v.Ok(orig, obls, s.owned) && s.v.deferred == [] && s.v.Pending(orig, obls, s.others)
    && s.jobs == [] && s.main.Free? && (s.ready.armed || s.ready.fired)
  }

  ghost predicate Run(c: Config, orig: Memory, obls: seq<Obligation>, states: seq<State>, steps: seq<Step>) {
    && |states| == |steps| + 1 && Initial(orig, obls, states[0])
    && forall i | 0 <= i < |steps| :: Next(c, states[i], steps[i], states[i + 1])
  }

  // ---------------------------------------------------------------------------
  // No tensor is written before its buffer is ready
  // ---------------------------------------------------------------------------

  /** Past the test or the wait, the event has been seen to have fired. */
  predicate Passed(p: Phase) {
    p.Clearing? || p.Issuing? || p.Sent?
  }

  ghost predicate Safe(s: State) {
    && (!s.ready.armed ==> s.ready.fired)
    && (forall x | 0 <= x < |s.jobs| && Passed(s.jobs[x].phase) :: s.ready.fired)
    && (s.main.Busy? && Passed(s.main.phase) ==> s.ready.fired)
  }

  lemma {:induction false} StepSafe(c: Config, s: State, a: Step, s': State)
    requires Safe(s) && Next(c, s, a, s')
    ensures Safe(s') && (s.ready.fired ==> s'.ready.fired)
    ensures a.Send? || a.MainCopy? ==> s.ready.fired
  {
    hide Shaped, Window, WindowCopied, BufferStaged, DirectlyCopied, LostInRefusedTasks;
  }

  /** In every run, whichever threads test, wait and clear in whatever order: a copy to
      a tensor is issued only after its buffer was ready. */
  lemma {:induction false} IssuedWhenReady(c: Config, orig: Memory, obls: seq<Obligation>, states: seq<State>,
                                           steps: seq<Step>, i: nat)
    requires Run(c, orig, obls, states, steps) && i < |states|
    ensures Safe(states[i])
    ensures i < |steps| && (steps[i].Send? || steps[i].MainCopy?) ==> states[i].ready.fired
  {
    hide Safe, Next;
    if i == 0 {
      StartSafe(orig, obls, states[0]);
    } else {
      IssuedWhenReady(c, orig, obls, states, steps, i - 1);
      StepSafe(c, states[i - 1], steps[i - 1], states[i]);
    }
    if i < |steps| {
      StepSafe(c, states[i], steps[i], states[i + 1]);
    }
  }

  lemma {:induction false} StartSafe(orig: Memory, obls: seq<Obligation>, s: State)
    requires Initial(orig, obls, s)
    ensures Safe(s)
  {}

  // ---------------------------------------------------------------------------
  // Counting
  // ---------------------------------------------------------------------------

  /** Tasks keep to their own chunks, and the counter to those that have finished. */
  ghost predicate Sound(job: Job) {
    var f := job.f;
    && f.Valid() && |job.done| == |job.finished| == |f.added|
    && (forall k | 0 <= k < |f.added| :: f.First(k) + job.done[k] <= f.First(k + 1))
    && (forall k | 0 <= k < |f.added| && job.finished[k] :: f.added[k] && f.First(k) + job.done[k] == f.First(k + 1))
    && job.counter + Finished(job.finished) == Min(|f.bufs|, f.workers)
    && (job.phase.Copying? <==> job.counter > 0)
  }

  ghost predicate AllSound(s: State) {
    forall x | 0 <= x < |s.jobs| :: Sound(s.jobs[x])
  }

  lemma {:induction false} NewSound(f: Flush)
    requires f.Valid()
    ensures Sound(Job(f, seq(|f.added|, _ => 0), seq(|f.added|, _ => false), Min(|f.bufs|, f.workers), Copying))
  {
    NoneFinished(|f.added|);
    forall k | 0 <= k < |f.added|
      ensures f.First(k) <= f.First(k + 1)
    {
      StartsGrow(|f.bufs|, f.workers, k);
    }
  }

  lemma {:induction false} CountSound(job: Job, k: nat)
    requires Sound(job) && k < |job.f.added| && job.f.added[k] && !job.finished[k] && job.counter > 0
    requires job.f.First(k) + job.done[k] == job.f.First(k + 1)
    ensures Sound(job.(counter := job.counter - 1, finished := job.finished[k := true],
                       phase := if job.counter == 1 then Testing else job.phase))
  {
    FinishedMore(job.finished, k);
  }

  lemma {:induction false} StepSound(c: Config, s: State, a: Step, s': State)
    requires AllSound(s) && Next(c, s, a, s')
    ensures AllSound(s') && |s.jobs| <= |s'.jobs| && forall x | 0 <= x < |s.jobs| :: s'.jobs[x].f == s.jobs[x].f
  {
    hide Sound, Flush.First, Window, WindowCopied, BufferStaged, DirectlyCopied, LostInRefusedTasks, Flush.Part;
    match a {
      case Open(f) => NewSound(f);
      case CopyNext(x, k, ok) => CopySound(s.jobs[x], k);
      case CountDown(x, k) => CountSound(s.jobs[x], k);
      case Prepare(x) => PhaseSound(s.jobs[x], s'.jobs[x].phase);
      case Send(x, how) => PhaseSound(s.jobs[x], Sent);
      case _ =>
    }
  }

  lemma {:induction false} CopySound(job: Job, k: nat)
    requires Sound(job) && k < |job.f.added| && job.f.First(k) + job.done[k] < job.f.First(k + 1)
    ensures Sound(job.(done := job.done[k := job.done[k] + 1]))
  {}

  lemma {:induction false} PhaseSound(job: Job, p: Phase)
    requires Sound(job) && !job.phase.Copying? && !p.Copying?
    ensures Sound(job.(phase := p))
  {}

  /** In every run, once the added tasks of a flush have all counted down: the flush has
      gone on to send its region exactly if no task was refused and the counter did not
      start too high for the stride s. */
  lemma {:induction false} SentExactlyWhen(c: Config, orig: Memory, obls: seq<Obligation>, states: seq<State>,
                                           steps: seq<Step>, i: nat, x: nat, s: nat)
    requires Run(c, orig, obls, states, steps) && i < |states| && x < |states[i].jobs|
    requires var f := states[i].jobs[x].f; (s - 1) * f.workers < |f.bufs| <= s * f.workers
    ensures var job := states[i].jobs[x];
            && Sound(job)
            && ((forall k | 0 <= k < |job.f.added| && job.f.added[k] :: job.finished[k]) ==>
                  (!job.phase.Copying? <==>
                     && (forall k | 0 <= k < |job.f.added| :: job.f.added[k])
                     && (|job.f.bufs| <= job.f.workers || (job.f.workers - 1) * s < |job.f.bufs|)))
  {
    RunSound(c, orig, obls, states, steps, i);
    var job := states[i].jobs[x];
    CompletesExactlyWhen(|job.f.bufs|, job.f.workers, s);
    FinishedAtMost(job.finished);
  }

  lemma {:induction false} RunSound(c: Config, orig: Memory, obls: seq<Obligation>, states: seq<State>, steps: seq<Step>,
                                    i: nat)
    requires Run(c, orig, obls, states, steps) && i < |states|
    ensures AllSound(states[i])
  {
    hide Next, AllSound;
    if i == 0 {
      StartSound(orig, obls, states[0]);
    } else {
      RunSound(c, orig, obls, states, steps, i - 1);
      StepSound(c, states[i - 1], steps[i - 1], states[i]);
    }
  }

  lemma {:induction false} StartSound(orig: Memory, obls: seq<Obligation>, s: State)
    requires Initial(orig, obls, s)
    ensures AllSound(s)
  {}

  // ---------------------------------------------------------------------------
  // Where the bytes are
  // ---------------------------------------------------------------------------

  /** Chunk j of the flush has been copied. */
  ghost predicate Filled(job: Job, j: nat)
    requires job.f.Valid()
  {
    j < |job.f.bufs| && exists k: nat :: k < |job.done| && job.f.First(k) <= j < job.f.First(k) + job.done[k]
  }

  /** l lies in the part of a chunk that has been copied, through the stream. */
  ghost predicate Streamed(job: Job, c: Config, l: Loc)
    requires job.f.Valid()
  {
    exists j | 0 <= j < |job.f.bufs| :: Filled(job, j) && c.Streams(job.f.bufs[j])
                                        && In(l, StageCopy(job.f.bufs, job.f.serial, j).dst, job.f.bufs[j].size)
  }

  /** A queued copy does not read the region, and writes no part that is still to be
      filled. */
  ghost predicate KeepsOff(job: Job, c: Config, op: Copy)
    requires job.f.Valid()
  {
    && (forall l: Loc | In(l, op.src, op.n) :: l.space != Staging(job.f.serial))
    && (forall l: Loc | In(l, op.dst, op.n) && l.space == Staging(job.f.serial) :: Streamed(job, c, l))
  }

  ghost predicate PartStaged(job: Job, v: View, orig: Memory, j: nat)
    requires j < |job.f.bufs|
  {
    StagedOne(v.Eventual(), orig, v.live, StageCopy(job.f.bufs, job.f.serial, j).dst, job.f.bufs[j])
  }

  /** A flush that has not been sent: its window is unwritten, its region holds or will
      hold the chunks that have been copied, and the other parts are free. */
  ghost predicate Filling(job: Job, c: Config, v: View, orig: Memory) {
    && Shaped(job) && Window(job.f.bufs, job.f.obs, job.f.base, job.f.t, v.r, |v.live|)
    && (forall j | 0 <= j < |job.f.bufs| && Filled(job, j) :: PartStaged(job, v, orig, j))
    && (forall op | op in v.stream :: KeepsOff(job, c, op))
  }

  predicate Avoids(op: Copy, s: nat) {
    (op.n > 0 ==> op.src.space != Staging(s) && op.dst.space != Staging(s))
  }

  /** Nothing that happens elsewhere disturbs it. */
  lemma {:induction false} FillingStays(job: Job, c: Config, v0: View, v1: View, orig: Memory)
    requires Filling(job, c, v0, orig) && OnlyNulled(v0.live, v1.live)
    requires Window(job.f.bufs, job.f.obs, job.f.base, job.f.t, v1.r, |v1.live|)
    requires forall l: Loc | l.space == Staging(job.f.serial) :: v1.Eventual()(l) == v0.Eventual()(l)
    requires forall op | op in v1.stream :: op in v0.stream || Avoids(op, job.f.serial)
    ensures Filling(job, c, v1, orig)
  {
    hide Window, View.Eventual, Filled, Streamed;
    forall j | 0 <= j < |job.f.bufs| && Filled(job, j)
      ensures PartStaged(job, v1, orig, j)
    {
      assert PartStaged(job, v0, orig, j);
    }
    forall op | op in v1.stream
      ensures KeepsOff(job, c, op)
    {
      if op in v0.stream {
        assert KeepsOff(job, c, op);
      }
    }
  }

  /** The offset a task has got to is where its chunk belongs. */
  lemma {:induction false} PartIs(f: Flush, k: nat, j: nat)
    requires f.Valid() && k < |f.added| && f.First(k) <= j < f.First(k + 1)
    ensures j < |f.bufs| && f.Part(k, j) == StageCopy(f.bufs, f.serial, j)
  {
    TaskRanges(f.bufs, f.workers, k, j);
  }

  /** The task that chunk j belongs to. */
  ghost function Owner(f: Flush, j: nat): (k: nat)
    requires f.Valid() && j < |f.bufs|
    ensures k < |f.added| && f.First(k) <= j < f.First(k + 1)
    ensures forall i: nat :: f.First(i) <= j < f.First(i + 1) ==> i == k
  {
    var k := j / Stride(|f.bufs|, f.workers);
    forall i: nat
      ensures f.First(i) <= j < f.First(i + 1) <==> i == k
    {
      OneTaskPerChunk(|f.bufs|, f.workers, j, i);
    }
    OneTaskPerChunk(|f.bufs|, f.workers, j, k);
    k
  }

  lemma {:induction false} CopiedByOwner(job: Job, i: nat, j: nat)
    requires Sound(job) && j < |job.f.bufs| && i < |job.f.added| && job.f.First(i) <= j < job.f.First(i) + job.done[i]
    ensures i == Owner(job.f, j)
  {
    assert job.f.First(i) + job.done[i] <= job.f.First(i + 1);
  }

  /** A task copies a chunk that nobody has copied. */
  lemma {:induction false} FilledMore(job: Job, k: nat)
    requires Sound(job) && k < |job.f.added| && job.f.First(k) + job.done[k] < job.f.First(k + 1)
    ensures var j, job' := job.f.First(k) + job.done[k], job.(done := job.done[k := job.done[k] + 1]);
            && j < |job.f.bufs| && !Filled(job, j)
            && forall i: nat :: Filled(job', i) <==> Filled(job, i) || i == j
  {
    hide Flush.First, Finished;
    var f, j, job' := job.f, job.f.First(k) + job.done[k], job.(done := job.done[k := job.done[k] + 1]);
    PartIs(f, k, j);
    assert Owner(f, j) == k;
    forall i: nat | i < |job.done|
      ensures !(f.First(i) <= j < f.First(i) + job.done[i])
    {
      if f.First(i) <= j < f.First(i) + job.done[i] {
        CopiedByOwner(job, i, j);
      }
    }
    forall i: nat
      ensures Filled(job', i) <==> Filled(job, i) || i == j
    {
      if i == j {
        assert f.First(k) <= i < f.First(k) + job'.done[k];
      }
      if x: nat :| i < |f.bufs| && x < |job.done| && f.First(x) <= i < f.First(x) + job.done[x] {
        assert f.First(x) <= i < f.First(x) + job'.done[x];
      }
    }
  }

  /** When every task has counted down, every chunk has been copied. */
  lemma {:induction false} AllFilled(job: Job, j: nat)
    requires Sound(job) && job.counter == 0 && j < |job.f.bufs|
    ensures Filled(job, j)
  {
    CompletesExactlyWhen(|job.f.bufs|, job.f.workers, Stride(|job.f.bufs|, job.f.workers));
    FinishedAtMost(job.finished);
    hide Flush.First, Finished, TaskCount;
    var k := Owner(job.f, j);
    assert job.f.First(k) <= j < job.f.First(k) + job.done[k];
  }

  lemma {:induction false} PartsApart(f: Flush, i: nat, j: nat)
    requires i < |f.bufs| && j < |f.bufs| && i != j
    ensures Apart(StageCopy(f.bufs, f.serial, i).dst, f.bufs[i].size, StageCopy(f.bufs, f.serial, j).dst, f.bufs[j].size)
  {
    if i < j {
      SizesOrder(f.bufs, i, j);
    } else {
      SizesOrder(f.bufs, j, i);
    }
  }

  /** The part of a chunk that is still to be copied is free. */
  lemma {:induction false} NextPartFree(job: Job, c: Config, v: View, orig: Memory, j: nat)
    requires Filling(job, c, v, orig) && v.deferred == [] && j < |job.f.bufs| && !Filled(job, j)
    ensures FreePart(v.Queue(), StageCopy(job.f.bufs, job.f.serial, j))
  {
    hide Window, Filled, View.Eventual;
    var part := StageCopy(job.f.bufs, job.f.serial, j);
    assert Plans(v.deferred) == [];
    assert v.Queue() == v.stream;
    forall op | op in v.stream
      ensures Apart(part.dst, part.n, op.dst, op.n) && Apart(part.dst, part.n, op.src, op.n)
    {
      assert KeepsOff(job, c, op);
      forall l: Loc | In(l, part.dst, part.n)
        ensures !In(l, op.dst, op.n)
      {
        if In(l, op.dst, op.n) {
          var i :| 0 <= i < |job.f.bufs| && Filled(job, i)
                   && In(l, StageCopy(job.f.bufs, job.f.serial, i).dst, job.f.bufs[i].size);
          PartsApart(job.f, i, j);
        }
      }
    }
  }

  /** The next chunk of a task is staged, or its responses fail. */
  lemma {:induction false} FillingGrows(job: Job, c: Config, v0: View, v1: View, orig: Memory, obls: seq<Obligation>,
                                        owned: set<nat>, k: nat, ok: bool)
    requires v0.Ok(orig, obls, owned) && v0.deferred == [] && Filling(job, c, v0, orig) && Sound(job)
    requires k < |job.f.added| && job.f.First(k) + job.done[k] < job.f.First(k + 1)
    requires var j := job.f.First(k) + job.done[k];
             && j < |job.f.bufs| && BufferStaged(v0, v1, StageCopy(job.f.bufs, job.f.serial, j), job.f.bufs[j], ok)
             && (v1.stream != v0.stream ==> c.Streams(job.f.bufs[j]))
    ensures Filling(job.(done := job.done[k := job.done[k] + 1]), c, v1, orig)
  {
    hide Sound, Flush.First, View.Ok, View.Eventual, View.Queue, Filled, FreePart;
    var f, j, job' := job.f, job.f.First(k) + job.done[k], job.(done := job.done[k := job.done[k] + 1]);
    var part := StageCopy(f.bufs, f.serial, j);
    FilledMore(job, k);
    NextPartFree(job, c, v0, orig, j);
    WindowItem(f.bufs, f.obs, f.base, f.t, v0.r, |v0.live|, j);
    PartEffect(v0, v1, orig, obls, owned, f.bufs[j], part, ok);
    ValidRegions(v0, orig, obls, owned);
    hide Window;
    forall i | 0 <= i < |f.bufs| && Filled(job', i)
      ensures PartStaged(job', v1, orig, i)
    {
      if i == j {
        PartArrives(v0, v1, orig, f.bufs[j], part, ok);
      } else {
        assert PartStaged(job, v0, orig, i);
        PartsApart(f, i, j);
        StagedStays(v0.Eventual(), v1.Eventual(), orig, v0.live, v1.live, StageCopy(f.bufs, f.serial, i).dst, f.bufs[i], part);
      }
    }
    forall op | op in v1.stream
      ensures KeepsOff(job', c, op)
    {
      if op in v0.stream {
        assert KeepsOff(job, c, op);
        StillStreamed(job, job', c);
      } else {
        OwnPart(job', c, j, v0.r);
      }
    }
  }

  lemma {:induction false} ValidRegions(v: View, orig: Memory, obls: seq<Obligation>, owned: set<nat>)
    requires v.Ok(orig, obls, owned)
    ensures v.r.Valid() && Untouched(v.Eventual(), orig, v.r)
  {}

  lemma {:induction false} PartArrives(v0: View, v1: View, orig: Memory, buf: Chunk, part: Copy, ok: bool)
    requires part.src == buf.ptr && part.n == buf.size && BufferStaged(v0, v1, part, buf, ok)
    requires forall l: Loc :: v1.Eventual()(l) == (if ok then Apply(v0.Eventual(), part)(l) else v0.Eventual()(l))
    requires forall l: Loc | In(l, part.src, part.n) :: v0.Eventual()(l) == orig(l)
    ensures StagedOne(v1.Eventual(), orig, v1.live, part.dst, buf)
  {
    hide View.Eventual;
    if ok {
      forall l: Loc | In(l, part.dst, buf.size)
        ensures v1.Eventual()(l) == orig(Shift(l, part.dst, buf.ptr))
      {
        assert In(Shift(l, part.dst, part.src), part.src, part.n);
      }
    }
  }

  lemma {:induction false} StillStreamed(job: Job, job': Job, c: Config)
    requires job.f.Valid() && job'.f == job.f && forall i: nat | Filled(job, i) :: Filled(job', i)
    ensures forall l: Loc | Streamed(job, c, l) :: Streamed(job', c, l)
  {
    hide Filled;
  }

  /** The queued copy of a chunk reads its input and writes its own part. */
  lemma {:induction false} OwnPart(job: Job, c: Config, j: nat, r: Regions)
    requires job.f.Valid() && j < |job.f.bufs| && Filled(job, j) && c.Streams(job.f.bufs[j])
    requires r.Valid() && Within(job.f.bufs[j].ptr, job.f.bufs[j].size, r.inputs)
    ensures KeepsOff(job, c, StageCopy(job.f.bufs, job.f.serial, j))
  {
    hide Filled;
  }

  // ---------------------------------------------------------------------------
  // What every step keeps of the gather
  // ---------------------------------------------------------------------------

  /** The obligations of the flushes that have not been sent. */
  ghost function Unsent(jobs: seq<Job>): seq<Obligation> {
    if jobs == [] then []
    else
      var job := jobs[|jobs| - 1];
      Unsent(jobs[..|jobs| - 1]) + if job.phase.Sent? then [] else job.f.obs
  }

  lemma {:induction false} InUnsent(jobs: seq<Job>, o: Obligation)
    ensures o in Unsent(jobs) <==> exists x | 0 <= x < |jobs| :: !jobs[x].phase.Sent? && o in jobs[x].f.obs
  {
    if jobs != [] {
      var p, n := jobs[..|jobs| - 1], |jobs| - 1;
      InUnsent(p, o);
      if o in Unsent(p) {
        var x :| 0 <= x < |p| && !p[x].phase.Sent? && o in p[x].f.obs;
        assert jobs[x] == p[x];
      }
      if x :| 0 <= x < |jobs| && !jobs[x].phase.Sent? && o in jobs[x].f.obs {
        assert x < n ==> p[x] == jobs[x];
      }
    }
  }

  ghost predicate WindowsApart(f: Flush, g: Flush) {
    && Apart(f.t.ptr.Plus(f.base), Sizes(f.bufs), g.t.ptr.Plus(g.base), Sizes(g.bufs))
    && Apart(g.t.ptr.Plus(g.base), Sizes(g.bufs), f.t.ptr.Plus(f.base), Sizes(f.bufs))
  }

  ghost predicate ApartFrom(f: Flush, obs: seq<Obligation>) {
    forall o | o in obs :: Apart(o.copy.dst, o.copy.n, f.t.ptr.Plus(f.base), Sizes(f.bufs))
  }

  /** Every obligation is done or waits for a flush or for the collector's thread, and
      the flushes do not get in each other's way. */
  ghost predicate Flowing(c: Config, orig: Memory, obls: seq<Obligation>, s: State) {
    && s.v.Ok(orig, obls, s.owned) && s.v.deferred == []
    && s.v.Pending(orig, obls, Unsent(s.jobs) + s.others)
    && (forall x | 0 <= x < |s.jobs| :: s.jobs[x].f.serial in s.owned && s.jobs[x].f.Orderly(c))
    && (forall x | 0 <= x < |s.jobs| && !s.jobs[x].phase.Sent? ::
          Filling(s.jobs[x], c, s.v, orig) && ApartFrom(s.jobs[x].f, s.others))
    && (forall x, y | 0 <= x < y < |s.jobs| :: s.jobs[x].f.serial != s.jobs[y].f.serial)
    && (forall x, y | 0 <= x < y < |s.jobs| && !s.jobs[x].phase.Sent? && !s.jobs[y].phase.Sent? ::
          WindowsApart(s.jobs[x].f, s.jobs[y].f))
    && (s.main.Busy? ==> s.main.i < |s.others| && Placeable(s.v, s.others[s.main.i]))
  }

  /** Steps that only count or prepare. */
  lemma {:induction false} FlowingSame(c: Config, orig: Memory, obls: seq<Obligation>, s: State, s': State)
    requires Flowing(c, orig, obls, s) && s'.v == s.v && s'.owned == s.owned && s'.others == s.others
    requires |s'.jobs| == |s.jobs| && forall x | 0 <= x < |s.jobs| ::
               && s'.jobs[x].f == s.jobs[x].f && s'.jobs[x].done == s.jobs[x].done
               && |s'.jobs[x].finished| == |s.jobs[x].finished|
               && (s'.jobs[x].phase.Sent? <==> s.jobs[x].phase.Sent?)
    requires s'.main.Busy? ==> s'.main.i < |s.others| && Placeable(s.v, s.others[s'.main.i])
    ensures Flowing(c, orig, obls, s')
  {
    hide View.Ok, Window, Flush.Orderly, Placeable, ApartFrom, WindowsApart;
    SameUnsent(s.jobs, s'.jobs);
    forall x | 0 <= x < |s.jobs| && !s'.jobs[x].phase.Sent?
      ensures Filling(s'.jobs[x], c, s'.v, orig) && ApartFrom(s'.jobs[x].f, s'.others)
    {
      SameFilling(s.jobs[x], s'.jobs[x], c, s.v, orig);
    }
    MorePending(s.v, orig, obls, Unsent(s.jobs) + s.others, Unsent(s'.jobs) + s'.others);
  }

  lemma {:induction false} MorePending(v: View, orig: Memory, obls: seq<Obligation>, a: seq<Obligation>, b: seq<Obligation>)
    requires v.Pending(orig, obls, a) && forall o | o in a :: o in b
    ensures v.Pending(orig, obls, b)
  {}

  lemma {:induction false} SameFilling(job: Job, job': Job, c: Config, v: View, orig: Memory)
    requires Filling(job, c, v, orig) && job'.f == job.f && job'.done == job.done && |job'.finished| == |job.finished|
    ensures Filling(job', c, v, orig)
  {
    hide Window, View.Eventual;
    assert forall j: nat :: Filled(job', j) == Filled(job, j);
    hide Filled;
    forall j | 0 <= j < |job.f.bufs| && Filled(job', j)
      ensures PartStaged(job', v, orig, j)
    {
      assert PartStaged(job, v, orig, j);
    }
    forall op | op in v.stream
      ensures KeepsOff(job', c, op)
    {
      assert KeepsOff(job, c, op);
      StillStreamed(job, job', c);
    }
  }

  /** While a task has chunks left nobody sends the region. */
  lemma {:induction false} StillCopying(job: Job, k: nat)
    requires Sound(job) && k < |job.f.added| && job.f.First(k) + job.done[k] < job.f.First(k + 1)
    ensures job.phase.Copying?
  {
    CompletesExactlyWhen(|job.f.bufs|, job.f.workers, Stride(|job.f.bufs|, job.f.workers));
    FinishedAtMost(job.finished);
  }

  /** What is known about the chunk that a task copies next. */
  lemma {:induction false} NextChunkFree(job: Job, c: Config, v: View, orig: Memory, k: nat)
    requires Filling(job, c, v, orig) && v.deferred == [] && Sound(job)
    requires k < |job.f.added| && job.f.First(k) + job.done[k] < job.f.First(k + 1)
    ensures var j := job.f.First(k) + job.done[k];
            && job.f.First(k) <= j < |job.f.bufs| && job.f.Part(k, j) == StageCopy(job.f.bufs, job.f.serial, j)
            && FreePart(v.Queue(), StageCopy(job.f.bufs, job.f.serial, j))
            && Within(job.f.bufs[j].ptr, job.f.bufs[j].size, v.r.inputs)
  {
    hide View.Eventual, View.Queue, Window, Filling, FreePart, Filled;
    var f, j := job.f, job.f.First(k) + job.done[k];
    FilledMore(job, k);
    PartIs(f, k, j);
    NextPartFree(job, c, v, orig, j);
    FillingWindow(job, c, v, orig);
    WindowItem(f.bufs, f.obs, f.base, f.t, v.r, |v.live|, j);
  }

  lemma {:induction false} StepCopyNext(c: Config, orig: Memory, obls: seq<Obligation>, s: State, x: nat, k: nat, ok: bool,
                                        s': State)
    requires Flowing(c, orig, obls, s) && AllSound(s) && Copied(c, s, x, k, ok, s')
    ensures Flowing(c, orig, obls, s')
  {
    hide View.Ok, View.Pending, View.Eventual, View.Queue, Window, Flush.Orderly, Filling, ApartFrom, WindowsApart, FreePart;
    hide Flush.First, Sound, Unsent, BufferStaged, Within, StageCopy, Flush.Part;
    var job, f := s.jobs[x], s.jobs[x].f;
    var j := f.First(k) + job.done[k];
    var part := StageCopy(f.bufs, f.serial, j);
    StillCopying(job, k);
    NextChunkFree(job, c, s.v, orig, k);
    StagedParts(s.v, s'.v, f.bufs, f.serial, j, ok);
    PartKeeps(s.v, s'.v, orig, obls, s.owned, Unsent(s.jobs) + s.others, f.serial, f.bufs[j], part, ok);
    SameUnsent(s.jobs, s'.jobs);
    MorePending(s'.v, orig, obls, Unsent(s.jobs) + s.others, Unsent(s'.jobs) + s'.others);
    forall y | 0 <= y < |s.jobs| && !s'.jobs[y].phase.Sent?
      ensures Filling(s'.jobs[y], c, s'.v, orig)
    {
      if y == x {
        FillingGrows(job, c, s.v, s'.v, orig, obls, s.owned, k, ok);
      } else {
        FillingBeside(s.jobs[y], c, s.v, s'.v, orig, obls, s.owned, f, j, ok);
      }
    }
  }

  lemma {:induction false} StagedParts(v0: View, v1: View, bufs: seq<Chunk>, s: nat, j: nat, ok: bool)
    requires j < |bufs| && BufferStaged(v0, v1, StageCopy(bufs, s, j), bufs[j], ok)
    ensures v1.deferred == v0.deferred && v1.r == v0.r && |v1.live| == |v0.live|
    ensures StageCopy(bufs, s, j).src == bufs[j].ptr && StageCopy(bufs, s, j).n == bufs[j].size
    ensures StageCopy(bufs, s, j).dst.space == Staging(s)
  {}

  lemma {:induction false} SameUnsent(jobs: seq<Job>, jobs': seq<Job>)
    requires |jobs| == |jobs'|
    requires forall x | 0 <= x < |jobs| :: jobs'[x].f == jobs[x].f && (jobs'[x].phase.Sent? <==> jobs[x].phase.Sent?)
    ensures forall o | o in Unsent(jobs) :: o in Unsent(jobs')
  {
    hide Unsent;
    forall o | o in Unsent(jobs)
      ensures o in Unsent(jobs')
    {
      InUnsent(jobs, o);
      InUnsent(jobs', o);
    }
  }

  /** Filling another region leaves a flush alone. */
  lemma {:induction false} FillingBeside(job: Job, c: Config, v0: View, v1: View, orig: Memory, obls: seq<Obligation>,
                                         owned: set<nat>, f: Flush, j: nat, ok: bool)
    requires v0.Ok(orig, obls, owned) && Filling(job, c, v0, orig) && f.serial != job.f.serial && j < |f.bufs|
    requires FreePart(v0.Queue(), StageCopy(f.bufs, f.serial, j)) && Within(f.bufs[j].ptr, f.bufs[j].size, v0.r.inputs)
    requires BufferStaged(v0, v1, StageCopy(f.bufs, f.serial, j), f.bufs[j], ok)
    ensures Filling(job, c, v1, orig)
  {
    hide View.Ok, View.Eventual, View.Queue, Window, Filling, FreePart;
    var part := StageCopy(f.bufs, f.serial, j);
    PartEffect(v0, v1, orig, obls, owned, f.bufs[j], part, ok);
    ValidRegions(v0, orig, obls, owned);
    FillingWindow(job, c, v0, orig);
    Elsewhere(part, job.f.serial, v0.r);
    forall l: Loc | l.space == Staging(job.f.serial)
      ensures v1.Eventual()(l) == v0.Eventual()(l)
    {
      assert !In(l, part.dst, part.n);
    }
    FillingStays(job, c, v0, v1, orig);
  }

  lemma {:induction false} FillingWindow(job: Job, c: Config, v: View, orig: Memory)
    requires Filling(job, c, v, orig)
    ensures Shaped(job) && Window(job.f.bufs, job.f.obs, job.f.base, job.f.t, v.r, |v.live|)
  {}

  /** A copy from the inputs into one staging region avoids every other. */
  lemma {:induction false} Elsewhere(part: Copy, s: nat, r: Regions)
    requires r.Valid() && Within(part.src, part.n, r.inputs) && part.dst.space != Staging(s)
    ensures Avoids(part, s)
  {
    if part.n > 0 {
      assert In(part.src, part.src, part.n);
    }
  }

  /** Writing bytes that are apart from it leaves a window alone. */
  lemma {:induction false} WindowStays(f: Flush, r: Regions, count: nat, p: Loc, n: nat)
    requires Window(f.bufs, f.obs, f.base, f.t, r, count) && Apart(p, n, f.t.ptr.Plus(f.base), Sizes(f.bufs))
    ensures Window(f.bufs, f.obs, f.base, f.t, r.Take(p, n), count)
  {}

  /** A tensor write that is apart from its window leaves a flush alone. */
  lemma {:induction false} FillingThrough(job: Job, c: Config, v0: View, v1: View, orig: Memory, op: Copy)
    requires Filling(job, c, v0, orig) && OnlyNulled(v0.live, v1.live) && v1.r == v0.r.Take(op.dst, op.n)
    requires Apart(op.dst, op.n, job.f.t.ptr.Plus(job.f.base), Sizes(job.f.bufs)) && Avoids(op, job.f.serial)
    requires forall l: Loc | !In(l, op.dst, op.n) :: v1.Eventual()(l) == v0.Eventual()(l)
    requires v1.stream == v0.stream || v1.stream == v0.stream + [op]
    ensures Filling(job, c, v1, orig)
  {
    hide View.Eventual, Filling, Window;
    FillingWindow(job, c, v0, orig);
    WindowStays(job.f, v0.r, |v0.live|, op.dst, op.n);
    FillingStays(job, c, v0, v1, orig);
  }

  /** The part of an unsent flush's window that one of its obligations is about. */
  lemma {:induction false} ObligationInWindow(f: Flush, r: Regions, count: nat, o: Obligation, p: Loc, n: nat)
    requires Window(f.bufs, f.obs, f.base, f.t, r, count) && o in f.obs
    requires Apart(f.t.ptr.Plus(f.base), Sizes(f.bufs), p, n)
    ensures Apart(o.copy.dst, o.copy.n, p, n)
  {
    var i :| 0 <= i < |f.obs| && f.obs[i] == o;
    SizesStep(f.bufs, i);
  }

  lemma {:induction false} StepSend(c: Config, orig: Memory, obls: seq<Obligation>, s: State, x: nat, how: Outcome, s': State)
    requires Flowing(c, orig, obls, s) && AllSound(s) && Dispatched(c, s, x, how, s')
    ensures Flowing(c, orig, obls, s')
  {
    hide View.Ok, View.Pending, View.Eventual, View.Queue, Window, Filling, ApartFrom, WindowsApart, AllSound, Unsent;
    hide Flush.Orderly, Placeable, WindowCopied, Flush.Whole;
    SendSettles(c, orig, obls, s, x, how, s');
    forall y | 0 <= y < |s.jobs| && !s'.jobs[y].phase.Sent?
      ensures Filling(s'.jobs[y], c, s'.v, orig)
    {
      SendKeepsFilling(c, orig, obls, s, x, how, s', y);
    }
    if s.main.Busy? {
      StillPlaceable(s.v, s'.v, s.jobs[x].f, s.others, s.main.i);
    }
  }

  /** Sending a filled region meets the obligations of its window. */
  lemma {:induction false} SendSettles(c: Config, orig: Memory, obls: seq<Obligation>, s: State, x: nat, how: Outcome,
                                       s': State)
    requires Flowing(c, orig, obls, s) && AllSound(s) && Dispatched(c, s, x, how, s')
    ensures s'.v.Ok(orig, obls, s.owned) && s'.v.Pending(orig, obls, Unsent(s'.jobs) + s'.others)
    ensures s'.v.deferred == [] && s'.v.r == s.v.r.Take(s.jobs[x].f.t.ptr.Plus(s.jobs[x].f.base), Sizes(s.jobs[x].f.bufs))
  {
    hide View.Ok, View.Pending, View.Eventual, View.Queue, Window, Filling, ApartFrom, WindowsApart, Sound, Unsent;
    hide Flush.Orderly, Placeable, IndependentOfAll, Staged, Sizes;
    var job, f := s.jobs[x], s.jobs[x].f;
    var rest := Unsent(s'.jobs) + s'.others;
    FillingWindow(job, c, s.v, orig);
    RegionFilled(job, c, s.v, orig);
    SendPending(c, orig, obls, s, x, s'.jobs);
    if how.AtOnce? {
      NotOvertaken(job, c, s.v, orig);
    }
    WindowCopy(s.v, s'.v, orig, obls, s.owned, f.serial, f.bufs, f.obs, rest, f.base, f.t, how);
  }

  /** The other regions are filled as before. */
  lemma {:induction false} SendKeepsFilling(c: Config, orig: Memory, obls: seq<Obligation>, s: State, x: nat,
                                            how: Outcome, s': State, y: nat)
    requires Flowing(c, orig, obls, s) && AllSound(s) && Dispatched(c, s, x, how, s')
    requires y < |s.jobs| && !s'.jobs[y].phase.Sent?
    ensures Filling(s'.jobs[y], c, s'.v, orig)
  {
    hide View.Ok, View.Pending, View.Eventual, View.Queue, Window, Filling, ApartFrom, WindowsApart, Sound, Unsent;
    hide Flush.Orderly, Placeable, IndependentOfAll, Staged, Sizes;
    var job, f := s.jobs[x], s.jobs[x].f;
    FillingWindow(job, c, s.v, orig);
    WindowBuffers(f.bufs, f.obs, f.base, f.t, s.v.r, |s.v.live|);
    if how.AtOnce? {
      NotOvertaken(job, c, s.v, orig);
    }
    WindowEffect(s.v, s'.v, orig, obls, s.owned, f.Whole(), f.serial, f.bufs, how);
    ValidRegions(s.v, orig, obls, s.owned);
    SendAvoids(c, orig, obls, s, x, y);
    FillingThrough(s.jobs[y], c, s.v, s'.v, orig, f.Whole());
  }

  /** A region that is about to be sent holds, or will hold, all its chunks. */
  lemma {:induction false} RegionFilled(job: Job, c: Config, v: View, orig: Memory)
    requires Filling(job, c, v, orig) && Sound(job) && job.phase.Issuing?
    ensures Staged(v.Eventual(), orig, v.live, job.f.serial, job.f.bufs, |job.f.bufs|)
  {
    hide View.Eventual, Window, Filled;
    forall j | 0 <= j < |job.f.bufs|
      ensures StagedOne(v.Eventual(), orig, v.live, StagingAt(job.f.serial, Sizes(job.f.bufs[..j])), job.f.bufs[j])
    {
      AllFilled(job, j);
      assert PartStaged(job, v, orig, j);
    }
  }

  /** The host does not send a region that the stream still writes. */
  lemma {:induction false} NotOvertaken(job: Job, c: Config, v: View, orig: Memory)
    requires Filling(job, c, v, orig) && job.f.Orderly(c) && job.f.t.ptr.space.Type() != Gpu
    ensures forall op | op in v.stream :: forall l: Loc | In(l, op.dst, op.n) :: l.space != Staging(job.f.serial)
  {
    hide View.Eventual, Window, Filled;
    forall op | op in v.stream
      ensures forall l: Loc | In(l, op.dst, op.n) :: l.space != Staging(job.f.serial)
    {
      assert KeepsOff(job, c, op);
    }
  }

  /** What is pending besides the flush that is sent, and that it lies elsewhere. */
  lemma {:induction false} SendPending(c: Config, orig: Memory, obls: seq<Obligation>, s: State, x: nat, jobs': seq<Job>)
    requires Flowing(c, orig, obls, s) && x < |s.jobs| && !s.jobs[x].phase.Sent?
    requires jobs' == s.jobs[x := s.jobs[x].(phase := Sent)]
    ensures s.v.Pending(orig, obls, s.jobs[x].f.obs + (Unsent(jobs') + s.others))
    ensures forall o | o in Unsent(jobs') + s.others ::
              Apart(o.copy.dst, o.copy.n, s.jobs[x].f.t.ptr.Plus(s.jobs[x].f.base), Sizes(s.jobs[x].f.bufs))
  {
    hide View.Ok, View.Pending, View.Eventual, Window, Filling, Apart, Unsent;
    var f := s.jobs[x].f;
    forall o | o in Unsent(s.jobs)
      ensures o in f.obs || o in Unsent(jobs')
    {
      InUnsent(s.jobs, o);
      InUnsent(jobs', o);
      if y :| 0 <= y < |s.jobs| && !s.jobs[y].phase.Sent? && o in s.jobs[y].f.obs {
        assert y != x ==> jobs'[y] == s.jobs[y];
      }
    }
    MorePending(s.v, orig, obls, Unsent(s.jobs) + s.others, f.obs + (Unsent(jobs') + s.others));
    forall o | o in Unsent(jobs')
      ensures Apart(o.copy.dst, o.copy.n, f.t.ptr.Plus(f.base), Sizes(f.bufs))
    {
      InUnsent(jobs', o);
      var y :| 0 <= y < |jobs'| && !jobs'[y].phase.Sent? && o in jobs'[y].f.obs;
      assert jobs'[y] == s.jobs[y] && y != x;
      FillingWindow(s.jobs[y], c, s.v, orig);
      assert if y < x then WindowsApart(s.jobs[y].f, f) else WindowsApart(f, s.jobs[y].f);
      ObligationInWindow(s.jobs[y].f, s.v.r, |s.v.live|, o, f.t.ptr.Plus(f.base), Sizes(f.bufs));
    }
  }

  /** Sending flush x leaves flush y alone. */
  lemma {:induction false} SendAvoids(c: Config, orig: Memory, obls: seq<Obligation>, s: State, x: nat, y: nat)
    requires Flowing(c, orig, obls, s) && x < |s.jobs| && y < |s.jobs| && x != y
    requires !s.jobs[x].phase.Sent? && !s.jobs[y].phase.Sent?
    ensures var op := s.jobs[x].f.Whole();
            && Avoids(op, s.jobs[y].f.serial)
            && Apart(op.dst, op.n, s.jobs[y].f.t.ptr.Plus(s.jobs[y].f.base), Sizes(s.jobs[y].f.bufs))
  {
    hide View.Pending, View.Eventual, Filling, Apart;
    var f := s.jobs[x].f;
    assert if y < x then WindowsApart(s.jobs[y].f, f) else WindowsApart(f, s.jobs[y].f);
    FillingWindow(s.jobs[x], c, s.v, orig);
    if Sizes(f.bufs) > 0 {
      assert In(f.t.ptr.Plus(f.base), f.t.ptr.Plus(f.base), Sizes(f.bufs));
    }
  }

  lemma {:induction false} StillPlaceable(v0: View, v1: View, f: Flush, others: seq<Obligation>, i: nat)
    requires i < |others| && Placeable(v0, others[i]) && ApartFrom(f, others)
    requires v1.r == v0.r.Take(f.t.ptr.Plus(f.base), Sizes(f.bufs))
    ensures Placeable(v1, others[i])
  {
    assert others[i] in others;
  }

  lemma {:induction false} StepMainCopy(c: Config, orig: Memory, obls: seq<Obligation>, s: State, how: Outcome, s': State)
    requires Flowing(c, orig, obls, s) && Next(c, s, MainCopy(how), s')
    ensures Flowing(c, orig, obls, s')
  {
    hide View.Ok, View.Pending, View.Eventual, View.Queue, Window, Filling, WindowsApart, Unsent, Flush.Orderly;
    var i, ob := s.main.i, s.others[s.main.i];
    assert ob in s.others;
    assert s'.jobs == s.jobs;
    forall o | o in Unsent(s.jobs) + s.others
      ensures o == ob || o in Unsent(s.jobs) + s'.others
    {
      DropOne(s.others, i, o);
    }
    DirectCopy(s.v, s'.v, orig, obls, s.owned, ob, ob.copy, !how.Refused?, Unsent(s.jobs) + s.others,
               Unsent(s.jobs) + s'.others);
    DirectEffect(s.v, s'.v, orig, obls, s.owned, ob, how);
    ValidRegions(s.v, orig, obls, s.owned);
    forall y | 0 <= y < |s.jobs| && !s.jobs[y].phase.Sent?
      ensures Filling(s.jobs[y], c, s'.v, orig) && ApartFrom(s.jobs[y].f, s'.others)
    {
      AvoidsStaging(ob.copy, s.jobs[y].f.serial, s.v.r);
      FillingThrough(s.jobs[y], c, s.v, s'.v, orig, ob.copy);
    }
  }

  lemma {:induction false} DropOne<T>(xs: seq<T>, i: nat, x: T)
    requires i < |xs|
    ensures x in xs ==> x == xs[i] || x in xs[..i] + xs[i + 1..]
    ensures x in xs[..i] + xs[i + 1..] ==> x in xs
  {
    assert xs == xs[..i] + [xs[i]] + xs[i + 1..];
  }

  lemma {:induction false} DirectEffect(v0: View, v1: View, orig: Memory, obls: seq<Obligation>, owned: set<nat>,
                                        ob: Obligation, how: Outcome)
    requires v0.Ok(orig, obls, owned) && Placeable(v0, ob) && DirectlyCopied(v0, v1, ob, how)
    ensures forall l: Loc | !In(l, ob.copy.dst, ob.copy.n) :: v1.Eventual()(l) == v0.Eventual()(l)
  {
    QueueIndependent(v0, orig, obls, owned, ob.copy);
    CopyEffect(v0.mem, v0.stream, v1.mem, v1.stream, Plans(v0.deferred), ob.copy, !how.Refused?);
  }

  lemma {:induction false} AvoidsStaging(op: Copy, s: nat, r: Regions)
    requires r.Valid() && Within(op.src, op.n, r.inputs) && Within(op.dst, op.n, r.unwritten)
    ensures Avoids(op, s)
  {
    if op.n > 0 {
      assert In(op.src, op.src, op.n) && In(op.dst, op.dst, op.n);
    }
  }

  /** A window whose obligations are apart from another is apart from it. */
  lemma {:induction false} WindowApart(f: Flush, r: Regions, count: nat, p: Loc, n: nat)
    requires Window(f.bufs, f.obs, f.base, f.t, r, count) && forall o | o in f.obs :: Apart(o.copy.dst, o.copy.n, p, n)
    ensures Apart(f.t.ptr.Plus(f.base), Sizes(f.bufs), p, n)
  {
    forall l: Loc | In(l, f.t.ptr.Plus(f.base), Sizes(f.bufs))
      ensures !In(l, p, n)
    {
      var i := ChunkOf(f.bufs, l.addr - f.t.ptr.addr - f.base);
      assert f.obs[i] in f.obs;
      assert In(l, f.obs[i].copy.dst, f.obs[i].copy.n);
    }
  }

  /** The chunk that byte x of a window belongs to. */
  lemma {:induction false} ChunkOf(bufs: seq<Chunk>, x: nat) returns (i: nat)
    requires x < Sizes(bufs)
    ensures i < |bufs| && Sizes(bufs[..i]) <= x < Sizes(bufs[..i]) + bufs[i].size
  {
    var p := bufs[..|bufs| - 1];
    if x < Sizes(p) {
      i := ChunkOf(p, x);
      assert p[..i] == bufs[..i];
    } else {
      i := |bufs| - 1;
    }
  }

  lemma {:induction false} ApartSymmetric(p: Loc, n: nat, q: Loc, m: nat)
    requires Apart(p, n, q, m)
    ensures Apart(q, m, p, n)
  {}

  lemma {:induction false} StepOpen(c: Config, orig: Memory, obls: seq<Obligation>, s: State, f: Flush, s': State)
    requires Flowing(c, orig, obls, s) && Opened(s, f, s') && f.Orderly(c)
    ensures Flowing(c, orig, obls, s')
  {
    hide View.Ok, View.Pending, View.Eventual, View.Queue, Window, Filling, WindowsApart, Unsent, Flush.Orderly, Sizes;
    hide TaskCount, Min;
    var v1, n := s.v.(live := s'.v.live), |s.jobs|;
    LiveDrops(s.v, v1, orig, obls, s.owned, Unsent(s.jobs) + s.others);
    OwnStaging(v1, orig, obls, s.owned, f.serial);
    OpenPending(s, f, s');
    MorePending(v1, orig, obls, Unsent(s.jobs) + s.others, Unsent(s'.jobs) + s'.others);
    NewFilling(s'.jobs[n], c, v1, orig);
    forall y | 0 <= y < n && !s.jobs[y].phase.Sent?
      ensures Filling(s.jobs[y], c, v1, orig) && ApartFrom(s.jobs[y].f, s'.others) && WindowsApart(s.jobs[y].f, f)
    {
      FillingWindow(s.jobs[y], c, s.v, orig);
      FillingLive(s.jobs[y], c, s.v, v1, orig);
      OpenApart(s, f, s.jobs[y].f);
    }
  }

  lemma {:induction false} OpenPending(s: State, f: Flush, s': State)
    requires f.Valid() && Opened(s, f, s')
    ensures forall o | o in Unsent(s.jobs) + s.others :: o in Unsent(s'.jobs) + s'.others
  {
    assert s'.jobs[..|s.jobs|] == s.jobs;
  }

  lemma {:induction false} OpenApart(s: State, f: Flush, g: Flush)
    requires ApartFrom(g, s.others) && Window(f.bufs, f.obs, f.base, f.t, s.v.r, |s.v.live|)
    requires forall o | o in f.obs :: o in s.others
    ensures WindowsApart(g, f)
  {
    hide Window, Apart;
    WindowApart(f, s.v.r, |s.v.live|, g.t.ptr.Plus(g.base), Sizes(g.bufs));
    ApartSymmetric(f.t.ptr.Plus(f.base), Sizes(f.bufs), g.t.ptr.Plus(g.base), Sizes(g.bufs));
  }

  lemma {:induction false} FillingLive(job: Job, c: Config, v0: View, v1: View, orig: Memory)
    requires Filling(job, c, v0, orig) && OnlyNulled(v0.live, v1.live) && v1 == v0.(live := v1.live)
    ensures Filling(job, c, v1, orig)
  {
    hide Window, Filling, Plans;
    FillingWindow(job, c, v0, orig);
    FillingStays(job, c, v0, v1, orig);
  }

  /** A new region is empty and untouched. */
  lemma {:induction false} NewFilling(job: Job, c: Config, v: View, orig: Memory)
    requires Shaped(job) && job.done == seq(|job.f.added|, _ => 0) && v.deferred == []
    requires Window(job.f.bufs, job.f.obs, job.f.base, job.f.t, v.r, |v.live|)
    requires StagingUse(v.Queue(), job.f.serial, 0)
    requires forall op | op in v.stream :: forall l: Loc | In(l, op.dst, op.n) :: l.space != Staging(job.f.serial)
    ensures Filling(job, c, v, orig)
  {
    hide View.Eventual, Window;
    assert forall op | op in v.stream :: op in v.Queue();
  }

  // ---------------------------------------------------------------------------
  // Whole runs
  // ---------------------------------------------------------------------------

  /** A copy on the stream writes l. */
  ghost predicate Outstanding(v: View, l: Loc) {
    exists op | op in v.stream :: In(l, op.dst, op.n)
  }

  /** Since the start, memory has only changed in staging regions and where a copy was
      outstanding then, and only copies that write staging regions have been queued. */
  ghost predicate OnlyStaged(v0: View, v: View) {
    && (forall l: Loc | !l.space.Staging? && !Outstanding(v0, l) :: v.mem(l) == v0.mem(l))
    && forall op | op in v.stream :: op in v0.stream || op.dst.space.Staging?
  }

  /** As long as the event has not fired, the tasks have touched staging regions alone,
      and so has the device, apart from what it had to do before. */
  lemma {:induction false} OnlyStagingBeforeReady(c: Config, orig: Memory, obls: seq<Obligation>, states: seq<State>,
                                                  steps: seq<Step>, i: nat)
    requires Run(c, orig, obls, states, steps) && i < |states| && !states[i].ready.fired
    ensures OnlyStaged(states[0].v, states[i].v)
  {
    hide Safe, Next, OnlyStaged;
    if i == 0 {
      assert OnlyStaged(states[0].v, states[0].v) by { NothingDone(states[0].v); }
    } else {
      IssuedWhenReady(c, orig, obls, states, steps, i - 1);
      StepSafe(c, states[i - 1], steps[i - 1], states[i]);
      OnlyStagingBeforeReady(c, orig, obls, states, steps, i - 1);
      StepStages(c, states[0].v, states[i - 1], steps[i - 1], states[i]);
    }
  }

  lemma {:induction false} NothingDone(v: View)
    ensures OnlyStaged(v, v)
  {}

  lemma {:induction false} WorkStages(v0: View, v: View, v': View)
    requires OnlyStaged(v0, v) && Worked(v, v')
    ensures OnlyStaged(v0, v')
  {
    var op := v.stream[0];
    assert op in v.stream;
    forall l: Loc | !l.space.Staging? && !Outstanding(v0, l)
      ensures v'.mem(l) == v0.mem(l)
    {
      assert !In(l, op.dst, op.n);
    }
  }

  lemma {:induction false} StepStages(c: Config, v0: View, s: State, a: Step, s': State)
    requires OnlyStaged(v0, s.v) && Next(c, s, a, s') && !a.Send? && !a.MainCopy?
    ensures OnlyStaged(v0, s'.v)
  {
    hide Window, LostInRefusedTasks, TaskStart, TaskOf;
    if a.Work? {
      WorkStages(v0, s.v, s'.v);
    } else if a.CopyNext? {
      var job := s.jobs[a.x];
      var part := job.f.Part(a.k, job.f.First(a.k) + job.done[a.k]);
      assert part.dst.space.Staging?;
      assert forall l: Loc | !l.space.Staging? :: !In(l, part.dst, part.n);
    }
  }

  /** No flush that is opened can be overtaken by its own send. */
  ghost predicate OrderlyRun(c: Config, steps: seq<Step>) {
    forall i | 0 <= i < |steps| && steps[i].Open? :: steps[i].f.Orderly(c)
  }

  lemma {:induction false} StepSame(c: Config, orig: Memory, obls: seq<Obligation>, s: State, a: Step, s': State)
    requires Flowing(c, orig, obls, s) && AllSound(s) && Next(c, s, a, s')
    requires a.Fire? || a.CountDown? || a.Prepare? || a.Begin? || a.MainPrepare?
    ensures Flowing(c, orig, obls, s')
  {
    hide View.Ok, View.Pending, Filling, Flush.Orderly, Flush.First, ApartFrom, WindowsApart, Finished;
    hide Copied, Dispatched, Opened, DirectlyCopied;
    FlowingSame(c, orig, obls, s, s');
  }

  /** The device gets on with its stream: what is or will be there stays the same. */
  lemma {:induction false} StepWork(c: Config, orig: Memory, obls: seq<Obligation>, s: State, s': State)
    requires Flowing(c, orig, obls, s) && Next(c, s, Work, s')
    ensures Flowing(c, orig, obls, s')
  {
    hide View.Ok, View.Pending, View.Eventual, View.Queue, Window, ApartFrom, WindowsApart, Unsent, Flush.Orderly, Placeable;
    hide Worked, Filling;
    WorkInvisible(s.v, s'.v, orig, obls, s.owned, Unsent(s.jobs) + s.others);
    forall x | 0 <= x < |s.jobs| && !s.jobs[x].phase.Sent?
      ensures Filling(s.jobs[x], c, s'.v, orig)
    {
      WorkFills(s.jobs[x], c, s.v, s'.v, orig);
    }
    if s.main.Busy? {
      SamePlaces(s.v, s'.v, s.others[s.main.i]);
    }
  }

  lemma {:induction false} SamePlaces(v0: View, v1: View, ob: Obligation)
    requires Placeable(v0, ob) && v1.r == v0.r
    ensures Placeable(v1, ob)
  {}

  lemma {:induction false} WorkInvisible(v0: View, v1: View, orig: Memory, obls: seq<Obligation>, owned: set<nat>,
                                         pending: seq<Obligation>)
    requires Worked(v0, v1) && v0.Ok(orig, obls, owned) && v0.Pending(orig, obls, pending)
    ensures v1.Ok(orig, obls, owned) && v1.Pending(orig, obls, pending)
    ensures v1.Eventual() == v0.Eventual() && v1.deferred == v0.deferred && v1.r == v0.r && v1.live == v0.live
  {
    hide DeferredOk, Progress, Untouched, OpsOk, Plans;
    var op, rest := v0.stream[0], v1.stream + Plans(v0.deferred);
    assert v0.Queue() == [op] + rest && v1.Queue() == rest;
    assert [op][..0] == [] && Drain(v0.mem, [op]) == Apply(v0.mem, op);
    DrainConcat(v0.mem, [op], rest);
    FewerOps([op], rest, v0.r, owned);
  }

  lemma {:induction false} WorkFills(job: Job, c: Config, v0: View, v1: View, orig: Memory)
    requires Filling(job, c, v0, orig) && Worked(v0, v1) && v1.Eventual() == v0.Eventual()
    ensures Filling(job, c, v1, orig)
  {
    hide View.Eventual, Window, KeepsOff, Filled;
    assert forall op | op in v1.stream :: op in v0.stream;
    forall j | 0 <= j < |job.f.bufs| && Filled(job, j)
      ensures PartStaged(job, v1, orig, j)
    {
      assert PartStaged(job, v0, orig, j);
    }
  }

  lemma {:induction false} StepFlowing(c: Config, orig: Memory, obls: seq<Obligation>, s: State, a: Step, s': State)
    requires Flowing(c, orig, obls, s) && AllSound(s) && Next(c, s, a, s') && (a.Open? ==> a.f.Orderly(c))
    ensures Flowing(c, orig, obls, s')
  {
    hide Flowing, Copied, Dispatched, Opened, DirectlyCopied, Sound, Flush.Orderly, Worked;
    match a {
      case Open(f) => StepOpen(c, orig, obls, s, f, s');
      case CopyNext(x, k, ok) => StepCopyNext(c, orig, obls, s, x, k, ok, s');
      case Send(x, how) => StepSend(c, orig, obls, s, x, how, s');
      case MainCopy(how) => StepMainCopy(c, orig, obls, s, how, s');
      case Work => StepWork(c, orig, obls, s, s');
      case _ => StepSame(c, orig, obls, s, a, s');
    }
  }

  lemma {:induction false} RunFlowing(c: Config, orig: Memory, obls: seq<Obligation>, states: seq<State>,
                                      steps: seq<Step>, i: nat)
    requires Run(c, orig, obls, states, steps) && OrderlyRun(c, steps) && i < |states|
    ensures Flowing(c, orig, obls, states[i])
  {
    hide Flowing, AllSound, Next;
    if i == 0 {
      StartFlowing(c, orig, obls, states[0]);
    } else {
      RunFlowing(c, orig, obls, states, steps, i - 1);
      RunSound(c, orig, obls, states, steps, i - 1);
      StepFlowing(c, orig, obls, states[i - 1], steps[i - 1], states[i]);
    }
  }

  lemma {:induction false} StartFlowing(c: Config, orig: Memory, obls: seq<Obligation>, s: State)
    requires Initial(orig, obls, s)
    ensures Flowing(c, orig, obls, s)
  {
    hide View.Ok, View.Pending;
    assert Unsent(s.jobs) + s.others == s.others;
  }

  /** In every run of any number of flushes, in any schedule: when all flushes have been
      sent and the collector's thread has copied the rest, every obligation is met in
      the memory that the stream leads to, or its responses have failed; and no byte
      outside the destinations has changed. */
  lemma {:induction false} AllDelivered(c: Config, orig: Memory, obls: seq<Obligation>, states: seq<State>,
                                        steps: seq<Step>)
    requires Run(c, orig, obls, states, steps) && OrderlyRun(c, steps)
    requires var s := states[|steps|]; s.others == [] && forall x | 0 <= x < |s.jobs| :: s.jobs[x].phase.Sent?
    ensures var v := states[|steps|].v;
            && (forall ob | ob in obls :: Settled(ob, Drain(v.mem, v.stream), orig, v.live))
            && Untouched(Drain(v.mem, v.stream), orig, v.r)
  {
    hide View.Ok, View.Pending, Settled, Next;
    RunFlowing(c, orig, obls, states, steps, |steps|);
    var s := states[|steps|];
    NoneUnsent(s.jobs);
    assert Unsent(s.jobs) + s.others == [];
    AllSettled(s.v, orig, obls, s.owned);
  }

  lemma {:induction false} NoneUnsent(jobs: seq<Job>)
    requires forall x | 0 <= x < |jobs| :: jobs[x].phase.Sent?
    ensures Unsent(jobs) == []
  {
    if jobs != [] {
      NoneUnsent(jobs[..|jobs| - 1]);
    }
  }
}

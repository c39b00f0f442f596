/** The collector's other way of filling a staging buffer: how a pending window is
    split into tasks that copy its parts side by side, and how they are counted. */
module AsyncStaging {
  import opened Arithmetic
  import opened InputIteration
  import opened InputBytes

  // ---------------------------------------------------------------------------
  // How the window is split
  // ---------------------------------------------------------------------------

  function Min(a: nat, b: nat): (m: nat)
    ensures m <= a && m <= b && (m == a || m == b)
  {
    if a < b then a else b
  }

  /** How many chunks a task takes: the fewest with which the workers together can take
      all n. */
  function Stride(n: nat, workers: nat): (s: nat)
    requires workers > 0
    ensures n > 0 ==> s > 0
    ensures (s - 1) * workers < n <= s * workers
  {
    StrideBounds(n, workers);
    (n + workers - 1) / workers
  }

  lemma {:induction false} StrideBounds(n: nat, workers: nat)
    requires workers > 0
    ensures ((n + workers - 1) / workers) * workers >= n
    ensures n > 0 ==> (n + workers - 1) / workers > 0
    ensures ((n + workers - 1) / workers - 1) * workers < n
  {
    var q := (n + workers - 1) / workers;
    assert q * workers + (n + workers - 1) % workers == n + workers - 1;
    assert (q - 1) * workers == q * workers - workers;
  }

  /** Only one stride has these bounds. */
  lemma {:induction false} StrideUnique(n: nat, workers: nat, s: nat)
    requires workers > 0 && (s - 1) * workers < n <= s * workers
    ensures s == Stride(n, workers)
  {
    var r := Stride(n, workers);
    if s < r {
      MulGrows(s, r - 1, workers);
    } else if r < s {
      MulGrows(r, s - 1, workers);
    }
  }

  /** How many tasks it takes to cover n chunks: the last one starts before the end, and
      the one that would follow does not. */
  function TaskCount(n: nat, workers: nat): (t: nat)
    requires n > 0 && workers > 0
    ensures t > 0 && (t - 1) * Stride(n, workers) < n <= t * Stride(n, workers)
  {
    StrideBounds(n, Stride(n, workers));
    (n + Stride(n, workers) - 1) / Stride(n, workers)
  }

  function TaskStart(n: nat, workers: nat, k: nat): nat
    requires n > 0 && workers > 0
  {
    Min(k * Stride(n, workers), n)
  }

  /** A task: its chunks, and where in the staging buffer it starts. */
  datatype Task = Task(first: nat, end: nat, offset: nat)

  /** The completion counter starts at min(n, workers), and never are there more
      tasks than that, so the completion runs at most once; there are exactly as
      many, so that it does run, in precisely these cases.  s is the stride: with one
      chunk less to a task the workers could not take all n. */
  lemma {:induction false} CompletesExactlyWhen(n: nat, workers: nat, s: nat)
    requires n > 0 && workers > 0 && (s - 1) * workers < n <= s * workers
    ensures TaskCount(n, workers) <= Min(n, workers)
    ensures TaskCount(n, workers) == Min(n, workers) <==> n <= workers || (workers - 1) * s < n
  {
    hide TaskCount, Stride;
    var t := TaskCount(n, workers);
    StrideUnique(n, workers, s);
    if n <= workers {
      assert s == 1 by {
        if s >= 2 {
          MulGrows(1, s - 1, workers);
        }
      }
    } else {
      if t > workers {
        MulGrows(workers, t - 1, s);
        assert false;
      }
      if t < workers {
        MulGrows(t, workers - 1, s);
      }
    }
  }

  /** Five chunks over four workers give three tasks, but the counter is four. */
  lemma {:induction false} FiveOverFour()
    ensures TaskCount(5, 4) == 3 && Min(5, 4) == 4
  {}

  /** Splits the window and hands each part to the work queue, which may refuse it. */
  method SplitTasks(bufs: seq<Chunk>, workers: nat) returns (tasks: seq<Task>, counter: nat)
    requires bufs != [] && workers > 0
    ensures counter == Min(|bufs|, workers) && |tasks| == TaskCount(|bufs|, workers)
    ensures forall k | 0 <= k < |tasks| :: tasks[k] == TaskOf(bufs, workers, k)
  {
    var n := |bufs|;
    counter := Min(n, workers);
    var stride := Stride(n, workers);
    var offset, pending := 0, 0;
    tasks := [];
    while pending < n
      invariant pending == TaskStart(n, workers, |tasks|) && offset == Sizes(bufs[..pending])
      invariant |tasks| <= TaskCount(n, workers) && (pending == n ==> |tasks| == TaskCount(n, workers))
      invariant forall k | 0 <= k < |tasks| :: tasks[k] == TaskOf(bufs, workers, k)
      decreases n - pending
    {
      StartsGrow(n, workers, |tasks|);
      var end, nextOffset := TakeStride(bufs, pending, offset, stride);
      tasks := tasks + [Task(pending, end, offset)];
      offset, pending := nextOffset, end;
    }
  }

  /** The end of the next part, and of its bytes. */
  method TakeStride(bufs: seq<Chunk>, start: nat, offset: nat, stride: nat) returns (end: nat, nextOffset: nat)
    requires start < |bufs| && stride > 0 && offset == Sizes(bufs[..start])
    ensures end == Min(start + stride, |bufs|) && nextOffset == Sizes(bufs[..end])
  {
    end, nextOffset := start, offset;
    var i := 0;
    while i < stride
      invariant i <= stride && end == start + i <= |bufs| && nextOffset == Sizes(bufs[..end])
      invariant i < stride ==> end < |bufs|
    {
      SizesStep(bufs, end);
      nextOffset := nextOffset + bufs[end].size;
      end := end + 1;
      i := i + 1;
      if end == |bufs| {
        break;
      }
    }
  }

  function TaskOf(bufs: seq<Chunk>, workers: nat, k: nat): Task
    requires bufs != [] && workers > 0
  {
    var n := |bufs|;
    Task(TaskStart(n, workers, k), TaskStart(n, workers, k + 1), Sizes(bufs[..TaskStart(n, workers, k)]))
  }

  lemma {:induction false} StartsGrow(n: nat, workers: nat, k: nat)
    requires n > 0 && workers > 0
    ensures TaskStart(n, workers, k) < n ==>
              && k < TaskCount(n, workers)
              && TaskStart(n, workers, k) == k * Stride(n, workers)
              && TaskStart(n, workers, k + 1) == Min(TaskStart(n, workers, k) + Stride(n, workers), n)
              && (TaskStart(n, workers, k + 1) == n ==> k + 1 == TaskCount(n, workers))
    ensures TaskStart(n, workers, k) <= TaskStart(n, workers, k + 1)
  {
    var s, t := Stride(n, workers), TaskCount(n, workers);
    assert (k + 1) * s == k * s + s;
    if k * s < n {
      if k >= t {
        MulGrows(t, k, s);
      } else if k + 1 < t {
        MulGrows(k + 1, t - 1, s);
      }
    }
  }

  /** Every chunk belongs to exactly one task. */
  lemma {:induction false} OneTaskPerChunk(n: nat, workers: nat, j: nat, k: nat)
    requires workers > 0 && j < n
    ensures TaskStart(n, workers, k) <= j < TaskStart(n, workers, k + 1) <==> k == j / Stride(n, workers)
    ensures j / Stride(n, workers) < TaskCount(n, workers)
  {
    hide TaskCount;
    var s, q := Stride(n, workers), j / Stride(n, workers);
    DivBounds(j, s);
    InPart(n, s, j, k, q);
    if q >= TaskCount(n, workers) {
      MulGrows(TaskCount(n, workers), q, s);
    }
  }

  lemma {:induction false} DivBounds(j: nat, s: nat)
    requires s > 0
    ensures (j / s) * s <= j < (j / s) * s + s
  {
    assert j == (j / s) * s + j % s;
  }

  lemma {:induction false} InPart(n: nat, s: nat, j: nat, k: nat, q: nat)
    requires q * s <= j < q * s + s && j < n
    ensures Min(k * s, n) <= j < Min((k + 1) * s, n) <==> k == q
  {
    MulAdd(k, 1, s);
    MulAdd(q, 1, s);
    if k < q {
      MulGrows(k + 1, q, s);
    } else if k > q {
      MulGrows(q + 1, k, s);
    }
  }

  lemma {:induction false} NoSizes()
    ensures Sizes([]) == 0
  {}

  /** The tasks' parts of the staging buffer follow one another without gaps, from
      its start to its end; within a part every chunk starts behind all chunks that
      come before it in the window. */
  lemma {:induction false} TaskRanges(bufs: seq<Chunk>, workers: nat, k: nat, j: nat)
    requires bufs != [] && workers > 0 && k < TaskCount(|bufs|, workers)
    requires TaskOf(bufs, workers, k).first <= j <= TaskOf(bufs, workers, k).end
    ensures j <= |bufs|
    ensures TaskOf(bufs, workers, k).offset + Sizes(bufs[TaskOf(bufs, workers, k).first..j]) == Sizes(bufs[..j])
    ensures TaskOf(bufs, workers, k).end == TaskOf(bufs, workers, k + 1).first
    ensures k == 0 ==> TaskOf(bufs, workers, k).first == 0 == TaskOf(bufs, workers, k).offset
    ensures k + 1 == TaskCount(|bufs|, workers) ==> TaskOf(bufs, workers, k).end == |bufs|
  {
    hide Sizes, Stride;
    var first := TaskOf(bufs, workers, k).first;
    NoSizes();
    assert bufs[..j] == bufs[..first] + bufs[first..j];
    SizesConcat(bufs[..first], bufs[first..j]);
  }

  // ---------------------------------------------------------------------------
  // How many tasks have finished
  // ---------------------------------------------------------------------------

  function Finished(fs: seq<bool>): nat {
    if fs == [] then 0 else Finished(fs[..|fs| - 1]) + if fs[|fs| - 1] then 1 else 0
  }

  lemma {:induction false} FinishedMore(fs: seq<bool>, k: nat)
    requires k < |fs| && !fs[k]
    ensures Finished(fs[k := true]) == Finished(fs) + 1 <= |fs|
  {
    var g := fs[k := true];
    if k == |fs| - 1 {
      assert g[..k] == fs[..k];
      FinishedAtMost(fs[..k]);
    } else {
      FinishedMore(fs[..|fs| - 1], k);
      assert g[..|g| - 1] == fs[..|fs| - 1][k := true];
    }
  }

  lemma {:induction false} FinishedAtMost(fs: seq<bool>)
    ensures Finished(fs) <= |fs|
    ensures Finished(fs) == |fs| <==> forall k | 0 <= k < |fs| :: fs[k]
  {
    if fs != [] {
      FinishedAtMost(fs[..|fs| - 1]);
    }
  }

  lemma {:induction false} NoneFinished(n: nat)
    ensures Finished(seq(n, _ => false)) == 0
  {
    if n > 0 {
      NoneFinished(n - 1);
      assert seq(n, _ => false)[..n - 1] == seq(n - 1, _ => false);
    }
  }
}

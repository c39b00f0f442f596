/** Batch inputs: index tensors that describe how the requests of a batch make up
    a gathered tensor.  Entries are 32-bit integers; a buffer is an array of such
    cells together with its size in bytes. */
module BatchInputs {
  import opened InputIteration
  import opened Gather
  import opened Shapes
  import opened Arithmetic

  const INT_SIZE: nat := 4

  datatype Kind =
    | BatchElementCount
    | BatchAccumulatedElementCount
    | BatchAccumulatedElementCountWithZero
    | BatchMaxElementCountAsShape
    | BatchItemShape
    | BatchItemShapeFlatten

  // ---------------------------------------------------------------------------
  // Sizes
  // ---------------------------------------------------------------------------

  /** How many elements the first n inputs have together. */
  function Accumulated(shapes: seq<Shape>, n: nat): int
    requires n <= |shapes|
  {
    if n == 0 then 0 else Accumulated(shapes, n - 1) + ElementCount(shapes[n - 1])
  }

  function Largest(shapes: seq<Shape>, n: nat): int
    requires n <= |shapes|
  {
    if n == 0 then 0
    else
      var m, c := Largest(shapes, n - 1), ElementCount(shapes[n - 1]);
      if m < c then c else m
  }

  /** The largest element count of the first n inputs, but not below zero. */
  lemma {:induction false} LargestBounds(shapes: seq<Shape>, n: nat)
    requires n <= |shapes|
    ensures Largest(shapes, n) >= 0 && forall i | 0 <= i < n :: ElementCount(shapes[i]) <= Largest(shapes, n)
    ensures Largest(shapes, n) == 0 || exists i | 0 <= i < n :: ElementCount(shapes[i]) == Largest(shapes, n)
  {
    hide ElementCount;
    if n > 0 {
      LargestBounds(shapes, n - 1);
    }
  }

  /** How many batch items the first n inputs have, and how many dimensions these
      items have together. */
  function Items(shapes: seq<Shape>, n: nat): int
    requires n <= |shapes| && forall i | 0 <= i < |shapes| :: shapes[i] != []
  {
    if n == 0 then 0 else Items(shapes, n - 1) + shapes[n - 1][0]
  }

  function ItemDims(shapes: seq<Shape>, n: nat): int
    requires n <= |shapes| && forall i | 0 <= i < |shapes| :: shapes[i] != []
  {
    if n == 0 then 0 else ItemDims(shapes, n - 1) + BatchDims(shapes[n - 1])
  }

  /** How many dimensions the items of one input have together. */
  function BatchDims(shape: Shape): int
    requires shape != []
  {
    shape[0] * (|shape| - 1)
  }

  /** For one request these are its own numbers, and for more they add up. */
  lemma {:induction false} OneRequest(shape: Shape)
    requires shape != []
    ensures Accumulated([shape], 1) == ElementCount(shape)
    ensures Items([shape], 1) == shape[0] && ItemDims([shape], 1) == shape[0] * (|shape| - 1)
  {
    hide ElementCount;
    assert Accumulated([shape], 0) == Items([shape], 0) == ItemDims([shape], 0) == 0;
  }

  lemma {:induction false} MoreRequests(a: seq<Shape>, b: seq<Shape>, n: nat)
    requires n <= |b| && (forall i | 0 <= i < |a| :: a[i] != []) && forall i | 0 <= i < |b| :: b[i] != []
    ensures Accumulated(a + b, |a| + n) == Accumulated(a, |a|) + Accumulated(b, n)
    ensures Items(a + b, |a| + n) == Items(a, |a|) + Items(b, n)
    ensures ItemDims(a + b, |a| + n) == ItemDims(a, |a|) + ItemDims(b, n)
  {
    hide ElementCount, BatchDims;
    if n == 0 {
      FirstRequests(a, b, |a|);
    } else {
      MoreRequests(a, b, n - 1);
      assert (a + b)[|a| + n - 1] == b[n - 1];
    }
  }

  lemma {:induction false} FirstRequests(a: seq<Shape>, b: seq<Shape>, n: nat)
    requires n <= |a| && (forall i | 0 <= i < |a| :: a[i] != []) && forall i | 0 <= i < |b| :: b[i] != []
    ensures Accumulated(a + b, n) == Accumulated(a, n)
    ensures Items(a + b, n) == Items(a, n) && ItemDims(a + b, n) == ItemDims(a, n)
  {
    hide ElementCount, BatchDims;
    if n > 0 {
      FirstRequests(a, b, n - 1);
    }
  }

  /** What the item kinds ask of the inputs: a batch dimension. */
  predicate Batches(shapes: seq<Shape>) {
    forall i | 0 <= i < |shapes| :: shapes[i] != [] && shapes[i][0] >= 0
  }

  /** Request r has no items, and what is written of one all the same does not fit
      `length` cells. */
  predicate Overruns(shapes: seq<Shape>, length: nat, r: nat)
    requires r < |shapes| && Batches(shapes)
  {
    shapes[r][0] == 0 && ItemDims(shapes, r) <= length < ItemDims(shapes, r) + |shapes[r]| - 1
  }

  predicate OverrunsSomewhere(shapes: seq<Shape>, length: nat)
    requires Batches(shapes)
  {
    exists r | 0 <= r < |shapes| :: Overruns(shapes, length, r)
  }

  predicate EqualRanks(shapes: seq<Shape>) {
    forall i, j | 0 <= i < |shapes| && 0 <= j < |shapes| :: |shapes[i]| == |shapes[j]|
  }

  method BatchInputShape(kind: Kind, shapes: seq<Shape>) returns (shape: Shape)
    requires kind.BatchItemShape? || kind.BatchItemShapeFlatten? ==> forall i | 0 <= i < |shapes| :: shapes[i] != []
    ensures match kind
            case BatchElementCount => shape == [|shapes|]
            case BatchAccumulatedElementCount => shape == [|shapes|]
            case BatchAccumulatedElementCountWithZero => shape == [|shapes| + 1]
            case BatchMaxElementCountAsShape => shape == [Largest(shapes, |shapes|)]
            case BatchItemShape => shape == [Items(shapes, |shapes|), if shapes == [] then 0 else |shapes[|shapes| - 1]| - 1]
            case BatchItemShapeFlatten => shape == [ItemDims(shapes, |shapes|)]
  {
    shape := [0];
    var r := 0;
    match kind {
      case BatchElementCount => shape := shape[0 := |shapes|];
      case BatchAccumulatedElementCount => shape := shape[0 := |shapes|];
      case BatchAccumulatedElementCountWithZero => shape := shape[0 := |shapes| + 1];
      case BatchMaxElementCountAsShape =>
        while r < |shapes|
          invariant r <= |shapes| && shape == [Largest(shapes, r)]
        {
          var count := GetElementCount(shapes[r]);
          shape := shape[0 := if shape[0] < count then count else shape[0]];
          r := r + 1;
        }
      case BatchItemShape =>
        shape := shape + [0];
        while r < |shapes|
          invariant r <= |shapes| && shape == [Items(shapes, r), if r == 0 then 0 else |shapes[r - 1]| - 1]
        {
          shape := shape[0 := shape[0] + shapes[r][0]];
          shape := shape[1 := |shapes[r]| - 1];
          r := r + 1;
        }
      case BatchItemShapeFlatten =>
        while r < |shapes|
          invariant r <= |shapes| && shape == [ItemDims(shapes, r)]
        {
          shape := shape[0 := shape[0] + BatchDims(shapes[r])];
          r := r + 1;
        }
    }
  }

  // ---------------------------------------------------------------------------
  // Element counts
  // ---------------------------------------------------------------------------

  /** The whole cells among byteSize bytes. */
  predicate Holds(buffer: array<int>, byteSize: nat) {
    buffer.Length == byteSize / INT_SIZE
  }

  method SetElementCount(shapes: seq<Shape>, buffer: array<int>, byteSize: nat) returns (ok: bool)
    requires Holds(buffer, byteSize)
    modifies buffer
    ensures ok <==> |shapes| * INT_SIZE <= byteSize
    ensures forall i | 0 <= i < buffer.Length ::
              i < |shapes| ==> buffer[i] == ToInt(ElementCount(shapes[i]))
    ensures ok ==> forall i | |shapes| <= i < buffer.Length :: buffer[i] == 0
  {
    var offset, r := 0, 0;
    while r < |shapes|
      invariant r <= |shapes| && r <= buffer.Length && offset == r * INT_SIZE
      invariant forall i | 0 <= i < r :: buffer[i] == ToInt(ElementCount(shapes[i]))
    {
      if offset + INT_SIZE > byteSize {
        return false;
      }
      var count := GetElementCount(shapes[r]);
      buffer[r] := ToInt(count);
      offset := offset + INT_SIZE;
      r := r + 1;
    }
    while offset + INT_SIZE <= byteSize
      invariant offset % INT_SIZE == 0 && |shapes| <= offset / INT_SIZE <= buffer.Length
      invariant forall i | 0 <= i < |shapes| :: buffer[i] == ToInt(ElementCount(shapes[i]))
      invariant forall i | |shapes| <= i < offset / INT_SIZE :: buffer[i] == 0
    {
      buffer[offset / INT_SIZE] := 0;
      offset := offset + INT_SIZE;
    }
    ok := true;
  }

  /** Running totals into the cells from `at` on, of which there are byteSize bytes. */
  method SetAccumulatedElementCount(shapes: seq<Shape>, buffer: array<int>, at: nat, byteSize: nat) returns (ok: bool)
    requires Holds(buffer, at * INT_SIZE + byteSize)
    modifies buffer
    ensures ok <==> |shapes| * INT_SIZE <= byteSize
    ensures forall i | 0 <= i < at :: buffer[i] == old(buffer[i])
    ensures forall i | at <= i < buffer.Length ::
              i - at < |shapes| ==> buffer[i] == ToInt(Accumulated(shapes, i - at + 1))
    ensures ok ==> forall i | at + |shapes| <= i < buffer.Length :: buffer[i] == ToInt(Accumulated(shapes, |shapes|))
  {
    hide ToInt, ElementCount;
    var total, offset, r := 0, 0, 0;
    while r < |shapes|
      invariant r <= |shapes| && at + r <= buffer.Length && offset == r * INT_SIZE && total == Accumulated(shapes, r)
      invariant forall i | 0 <= i < at :: buffer[i] == old(buffer[i])
      invariant forall i | at <= i < at + r :: buffer[i] == ToInt(Accumulated(shapes, i - at + 1))
    {
      if offset + INT_SIZE > byteSize {
        return false;
      }
      var count := GetElementCount(shapes[r]);
      total := total + count;
      buffer[at + r] := ToInt(total);
      offset := offset + INT_SIZE;
      r := r + 1;
    }
    while offset + INT_SIZE <= byteSize
      invariant offset % INT_SIZE == 0 && |shapes| <= offset / INT_SIZE && at + offset / INT_SIZE <= buffer.Length
      invariant forall i | 0 <= i < at :: buffer[i] == old(buffer[i])
      invariant forall i | at <= i < at + |shapes| :: buffer[i] == ToInt(Accumulated(shapes, i - at + 1))
      invariant forall i | at + |shapes| <= i < at + offset / INT_SIZE :: buffer[i] == ToInt(total)
    {
      buffer[at + offset / INT_SIZE] := ToInt(total);
      offset := offset + INT_SIZE;
    }
    ok := true;
  }

  // ---------------------------------------------------------------------------
  // Item shapes
  // ---------------------------------------------------------------------------

  /** The dimensions of one batch item. */
  function Item(shape: Shape): (cells: seq<int>)
    requires shape != []
    ensures |cells| == |shape| - 1 && forall d | 0 <= d < |cells| :: cells[d] == ToInt(shape[d + 1])
  {
    seq(|shape| - 1, d requires 0 <= d < |shape| - 1 => ToInt(shape[d + 1]))
  }

  function Repeat(cells: seq<int>, n: nat): seq<int> {
    if n == 0 then [] else Repeat(cells, n - 1) + cells
  }

  lemma {:induction false} RepeatSize(cells: seq<int>, n: nat)
    ensures |Repeat(cells, n)| == n * |cells|
  {
    if n > 0 {
      RepeatSize(cells, n - 1);
      MulStep(n - 1, |cells|);
    }
  }

  lemma {:induction false} RepeatGrows(cells: seq<int>, k: nat, n: nat)
    requires k < n
    ensures Repeat(cells, k + 1) == Repeat(cells, k) + cells
    ensures |Repeat(cells, k + 1)| <= |Repeat(cells, n)|
  {
    if k + 1 < n {
      RepeatGrows(cells, k, n - 1);
    }
  }

  /** The item shapes of the first n requests, each as often as it has items. */
  function ItemCells(shapes: seq<Shape>, n: nat): seq<int>
    requires n <= |shapes| && Batches(shapes)
  {
    if n == 0 then [] else ItemCells(shapes, n - 1) + Repeat(Item(shapes[n - 1]), shapes[n - 1][0])
  }

  lemma {:induction false} ItemCellsSize(shapes: seq<Shape>, n: nat)
    requires n <= |shapes| && Batches(shapes)
    ensures |ItemCells(shapes, n)| == ItemDims(shapes, n)
  {
    if n > 0 {
      ItemCellsSize(shapes, n - 1);
      RepeatSize(Item(shapes[n - 1]), shapes[n - 1][0]);
    }
  }

  lemma {:induction false} ItemCellsPrefix(shapes: seq<Shape>, n: nat, m: nat)
    requires n <= m <= |shapes| && Batches(shapes)
    ensures ItemCells(shapes, n) <= ItemCells(shapes, m)
  {
    if n < m {
      ItemCellsPrefix(shapes, n, m - 1);
    }
  }

  /** In every repetition, dimension d of an item is where one would look for it. */
  lemma {:induction false} RepeatAt(cells: seq<int>, n: nat, k: nat, d: nat)
    requires k < n && d < |cells|
    ensures k * |cells| + d < |Repeat(cells, n)| && Repeat(cells, n)[k * |cells| + d] == cells[d]
  {
    var p := Repeat(cells, n - 1);
    RepeatSize(cells, n - 1);
    if k == n - 1 {
      assert (p + cells)[|p| + d] == cells[d];
    } else {
      RepeatAt(cells, n - 1, k, d);
    }
  }

  /** Item k of request r has its dimensions behind those of all earlier items. */
  lemma {:induction false} ItemCellAt(shapes: seq<Shape>, r: nat, k: nat, d: nat)
    requires Batches(shapes) && r < |shapes| && k < shapes[r][0] && d < |shapes[r]| - 1
    ensures var at := ItemDims(shapes, r) + k * (|shapes[r]| - 1) + d;
            0 <= at < |ItemCells(shapes, |shapes|)| && ItemCells(shapes, |shapes|)[at] == ToInt(shapes[r][d + 1])
  {
    hide ItemCells, Repeat, Item, ItemDims;
    var before, mine, all := ItemCells(shapes, r), Repeat(Item(shapes[r]), shapes[r][0]), ItemCells(shapes, |shapes|);
    var x := k * |Item(shapes[r])| + d;
    ItemCellsSize(shapes, r);
    RepeatAt(Item(shapes[r]), shapes[r][0], k, d);
    ItemCellsPrefix(shapes, r + 1, |shapes|);
    ItemCellsStep(shapes, r);
    assert all[..|before + mine|] == before + mine;
    assert all[|before| + x] == (before + mine)[|before| + x] == mine[x];
  }

  lemma {:induction false} ItemCellsStep(shapes: seq<Shape>, r: nat)
    requires Batches(shapes) && r < |shapes|
    ensures ItemCells(shapes, r + 1) == ItemCells(shapes, r) + Repeat(Item(shapes[r]), shapes[r][0])
    ensures |Repeat(Item(shapes[r]), shapes[r][0])| == BatchDims(shapes[r])
    ensures ItemDims(shapes, r + 1) == ItemDims(shapes, r) + BatchDims(shapes[r])
  {
    RepeatSize(Item(shapes[r]), shapes[r][0]);
  }

  /** One more cell of an item, written behind those before it. */
  lemma {:induction false} OneCellMore(all: seq<int>, at: nat, item: seq<int>, i: nat, b0: seq<int>, b1: seq<int>)
    requires i < |item| && at + i < |all| && b0 == all[..at] + item[..i] + all[at + i..]
    requires b1 == b0[at + i := item[i]]
    ensures b1 == all[..at] + item[..i + 1] + all[at + i + 1..]
  {
    assert item[..i + 1] == item[..i] + [item[i]];
    assert all[at + i..] == [all[at + i]] + all[at + i + 1..];
  }

  /** Writes the dimensions of one item. */
  method WriteItem(shape: Shape, buffer: array<int>, at: nat)
    requires shape != [] && at + |shape| - 1 <= buffer.Length
    modifies buffer
    ensures buffer[..] == old(buffer[..])[..at] + Item(shape) + old(buffer[..])[at + |shape| - 1..]
  {
    ghost var all, item := buffer[..], Item(shape);
    var d := 1;
    while d < |shape|
      invariant 1 <= d <= |shape| && buffer[..] == all[..at] + item[..d - 1] + all[at + d - 1..]
    {
      ghost var was := buffer[..];
      buffer[at + (d - 1)] := ToInt(shape[d]);
      OneCellMore(all, at, item, d - 1, was, buffer[..]);
      d := d + 1;
    }
    assert item[..|item|] == item;
  }

  /** b1 is b0 with a batch of items written at `at`: as many as it has, but at least one. */
  ghost predicate ItemsPut(shape: Shape, at: nat, b0: seq<int>, b1: seq<int>)
    requires shape != [] && shape[0] >= 0
  {
    var items := Repeat(Item(shape), if shape[0] > 0 then shape[0] else 1);
    at + |items| <= |b0| && b1 == b0[..at] + items + b0[at + |items|..]
  }

  /** Writes one item and then copies it until every item of the batch is there; one
      item is written even if there is none in the batch. */
  method WriteItems(shape: Shape, buffer: array<int>, at: nat)
    requires shape != [] && shape[0] >= 0 && at + |Repeat(Item(shape), shape[0])| <= buffer.Length
    requires at + |shape| - 1 <= buffer.Length
    modifies buffer
    ensures ItemsPut(shape, at, old(buffer[..]), buffer[..])
  {
    hide Repeat, Item, ItemsPut;
    ghost var all := buffer[..];
    WriteItem(shape, buffer, at);
    if shape[0] > 0 {
      RepeatItem(Item(shape), |shape| - 1, shape[0], buffer, at, all);
    }
    AllPut(shape, at, all, buffer[..]);
  }

  lemma {:induction false} AllPut(shape: Shape, at: nat, b0: seq<int>, b1: seq<int>)
    requires shape != [] && shape[0] >= 0 && at + |shape| - 1 <= |b0| && at + |Repeat(Item(shape), shape[0])| <= |b0|
    requires var item, items := Item(shape), Repeat(Item(shape), shape[0]);
             b1 == if shape[0] > 0 then b0[..at] + items + b0[at + |items|..] else b0[..at] + item + b0[at + |item|..]
    ensures ItemsPut(shape, at, b0, b1)
  {
    hide Repeat, Item;
    RepeatOnce(Item(shape));
  }

  /** Copies the item at at until it stands there n times. */
  method RepeatItem(ghost item: seq<int>, dims: nat, n: int, buffer: array<int>, at: nat, ghost all: seq<int>)
    requires |item| == dims && n > 0 && at + |Repeat(item, n)| <= buffer.Length == |all| && at + dims <= |all|
    requires buffer[..] == all[..at] + item + all[at + dims..]
    modifies buffer
    ensures buffer[..] == all[..at] + Repeat(item, n) + all[at + |Repeat(item, n)|..]
  {
    hide Repeat;
    var end, k := at + dims, 1;
    RepeatOnce(item);
    while k < n
      invariant 1 <= k <= n && end == at + |Repeat(item, k)| <= buffer.Length
      invariant buffer[..] == all[..at] + Repeat(item, k) + all[end..]
    {
      OneItemMore(item, dims, k, n, buffer, at, end, all);
      end := end + dims;
      k := k + 1;
    }
  }

  /** Copies the item at at once more, behind the k that are there. */
  method OneItemMore(ghost item: seq<int>, dims: nat, ghost k: nat, ghost n: int, buffer: array<int>, at: nat, end: nat,
                     ghost all: seq<int>)
    requires |item| == dims && 1 <= k < n && at + |Repeat(item, n)| <= buffer.Length == |all|
    requires end == at + |Repeat(item, k)| <= |all| && buffer[..] == all[..at] + Repeat(item, k) + all[end..]
    modifies buffer
    ensures end + dims == at + |Repeat(item, k + 1)| <= |all|
    ensures buffer[..] == all[..at] + Repeat(item, k + 1) + all[end + dims..]
  {
    hide Repeat;
    ItemBehind(item, k, n);
    ghost var was := buffer[..];
    CopyCells(buffer, at, end, dims);
    RepeatMore(all[..at], item, k, all, end, was, buffer[..]);
  }

  /** Of n items, the one behind the first k stands clear of the first. */
  lemma {:induction false} ItemBehind(item: seq<int>, k: nat, n: int)
    requires 1 <= k < n
    ensures |item| <= |Repeat(item, k)|
    ensures |Repeat(item, k + 1)| == |Repeat(item, k)| + |item| <= |Repeat(item, n)|
  {
    RepeatOnce(item);
    RepeatGrows(item, 0, k);
    RepeatGrows(item, k, n);
  }

  /** Copying the first item behind k items makes k + 1 items. */
  lemma {:induction false} RepeatMore(before: seq<int>, item: seq<int>, k: nat, all: seq<int>, end: nat,
                                      b0: seq<int>, b1: seq<int>)
    requires k >= 1 && end == |before| + |Repeat(item, k)| && end + |item| <= |all|
    requires b0 == before + Repeat(item, k) + all[end..]
    requires b1 == b0[..end] + b0[|before|..][..|item|] + b0[end + |item|..]
    ensures b1 == before + Repeat(item, k + 1) + all[end + |item|..]
  {
    RepeatFirst(item, k, before, all[end..]);
    Grown(before, Repeat(item, k), item, all, end);
    assert Repeat(item, k + 1) == Repeat(item, k) + item;
  }

  lemma {:induction false} MulStep(k: int, c: int)
    ensures (k + 1) * c == k * c + c
  {}

  lemma {:induction false} RepeatOnce(cells: seq<int>)
    ensures Repeat(cells, 1) == cells
  {
    assert Repeat(cells, 0) == [];
  }

  /** What stands at the start of the repetitions is the item itself. */
  lemma {:induction false} RepeatFirst(cells: seq<int>, k: nat, before: seq<int>, rest: seq<int>)
    requires k >= 1
    ensures (before + Repeat(cells, k) + rest)[|before|..][..|cells|] == cells
  {
    if k == 1 {
      RepeatOnce(cells);
      assert (before + cells + rest)[|before|..] == cells + rest;
    } else {
      RepeatFirst(cells, k - 1, before, cells + rest);
      assert before + Repeat(cells, k) + rest == before + Repeat(cells, k - 1) + (cells + rest);
    }
  }

  lemma {:induction false} Grown(before: seq<int>, done: seq<int>, item: seq<int>, all: seq<int>, end: nat)
    requires end + |item| <= |all| && end == |before| + |done|
    ensures |before + done + all[end..]| == |all|
    ensures (before + done + all[end..])[..end] + item + (before + done + all[end..])[end + |item|..]
         == before + (done + item) + all[end + |item|..]
  {}

  /** The first r requests have their items in the buffer, and if no batch is empty
      everything behind them is as it was. */
  ghost predicate Written(shapes: seq<Shape>, r: nat, all: seq<int>, now: seq<int>)
    requires Batches(shapes) && r <= |shapes|
  {
    && ItemCells(shapes, r) <= now && |now| == |all|
    && ((forall i | 0 <= i < r :: shapes[i][0] > 0) ==> now == ItemCells(shapes, r) + all[|ItemCells(shapes, r)|..])
  }

  lemma {:induction false} ItemsWritten(shapes: seq<Shape>, r: nat, all: seq<int>, b0: seq<int>, b1: seq<int>)
    requires Batches(shapes) && r < |shapes| && Written(shapes, r, all, b0)
    requires ItemsPut(shapes[r], |ItemCells(shapes, r)|, b0, b1)
    ensures Written(shapes, r + 1, all, b1)
  {
    var done, items := ItemCells(shapes, r), Repeat(Item(shapes[r]), shapes[r][0]);
    var end := |done|;
    assert b0[..end] == done;
    if shapes[r][0] == 0 {
      assert items == [] && done + items == done;
    } else {
      assert b1 == (done + items) + b0[end + |items|..];
    }
  }

  /** memcpy between cells of the same buffer that do not overlap. */
  method CopyCells(buffer: array<int>, src: nat, dst: nat, n: nat)
    requires src + n <= dst && dst + n <= buffer.Length
    modifies buffer
    ensures buffer[..] == old(buffer[..dst]) + old(buffer[..])[src..][..n] + old(buffer[..])[dst + n..]
  {
    ghost var all, item := buffer[..], buffer[..][src..][..n];
    var i := 0;
    while i < n
      invariant i <= n && buffer[..] == all[..dst] + item[..i] + all[dst + i..]
    {
      ghost var was := buffer[..];
      assert was[src + i] == all[src + i] == item[i];
      buffer[dst + i] := buffer[src + i];
      OneCellMore(all, dst, item, i, was, buffer[..]);
      i := i + 1;
    }
    assert item[..n] == item;
  }

  /** Writes the dimensions of every item.  overrun says that the code writes behind
      the end of the buffer; nothing is said about what comes of that. */
  method SetBatchItemShape(shapes: seq<Shape>, buffer: array<int>, byteSize: nat) returns (ok: bool, overrun: bool)
    requires Holds(buffer, byteSize) && Batches(shapes)
    modifies buffer
    ensures overrun <==> OverrunsSomewhere(shapes, buffer.Length)
    ensures if overrun then !ok else ok <==> ItemDims(shapes, |shapes|) * INT_SIZE <= byteSize
    ensures ok ==> ItemCells(shapes, |shapes|) <= buffer[..]
    ensures ok && (forall i | 0 <= i < |shapes| :: shapes[i][0] > 0) ==>
              buffer[..] == ItemCells(shapes, |shapes|) + old(buffer[..])[|ItemCells(shapes, |shapes|)|..]
  {
    hide ItemCells, ItemDims, BatchDims, Repeat, Item, Overruns, Written, ItemsPut;
    var offset, r := 0, 0;
    ghost var all := buffer[..];
    NoItems(shapes, all);
    while r < |shapes|
      invariant r <= |shapes| && offset == ItemDims(shapes, r) <= buffer.Length
      invariant |ItemCells(shapes, r)| == offset && Written(shapes, r, all, buffer[..])
      invariant forall k | 0 <= k < r :: !Overruns(shapes, buffer.Length, k)
    {
      ItemCellsStep(shapes, r);
      var items := BatchDims(shapes[r]);
      if (offset + items) * INT_SIZE > byteSize {
        TooManyItems(shapes, buffer.Length, r);
        ItemCellsSize(shapes, |shapes|);
        return false, false;
      }
      if offset + |shapes[r]| - 1 > buffer.Length {
        // The first item is written although the batch is empty.
        ItemsFit(shapes, buffer.Length, r);
        return false, true;
      }
      ghost var was := buffer[..];
      NoOverrun(shapes, buffer.Length, r);
      WriteItems(shapes[r], buffer, offset);
      ItemsWritten(shapes, r, all, was, buffer[..]);
      offset := offset + items;
      r := r + 1;
    }
    AllWritten(shapes, all, buffer[..]);
    ok, overrun := true, false;
  }

  lemma {:induction false} AllWritten(shapes: seq<Shape>, all: seq<int>, now: seq<int>)
    requires Batches(shapes) && Written(shapes, |shapes|, all, now)
    ensures ItemCells(shapes, |shapes|) <= now && |now| == |all|
    ensures (forall i | 0 <= i < |shapes| :: shapes[i][0] > 0) ==>
              now == ItemCells(shapes, |shapes|) + all[|ItemCells(shapes, |shapes|)|..]
  {}

  lemma {:induction false} ItemDimsGrow(shapes: seq<Shape>, r: nat, n: nat)
    requires Batches(shapes) && r <= n <= |shapes|
    ensures 0 <= ItemDims(shapes, r) <= ItemDims(shapes, n)
  {
    if r < n {
      ItemDimsGrow(shapes, r, n - 1);
    } else if r > 0 {
      ItemDimsGrow(shapes, r - 1, r - 1);
    }
  }

  lemma {:induction false} NoOverrun(shapes: seq<Shape>, length: nat, r: nat)
    requires Batches(shapes) && r < |shapes| && ItemDims(shapes, r) + |shapes[r]| - 1 <= length
    ensures !Overruns(shapes, length, r)
  {}

  /** Items that do not fit end the walk before anything else can go wrong. */
  lemma {:induction false} TooManyItems(shapes: seq<Shape>, length: nat, r: nat)
    requires Batches(shapes) && r < |shapes| && ItemDims(shapes, r) + BatchDims(shapes[r]) > length
    requires ItemDims(shapes, r) <= length && forall k | 0 <= k < r :: !Overruns(shapes, length, k)
    ensures !OverrunsSomewhere(shapes, length) && ItemDims(shapes, |shapes|) > length
  {
    ItemCellsStep(shapes, r);
    ItemDimsGrow(shapes, r + 1, |shapes|);
    forall k | r <= k < |shapes|
      ensures !Overruns(shapes, length, k)
    {
      if k > r {
        ItemDimsGrow(shapes, r + 1, k);
      }
    }
  }

  /** One item does not fit although all items do: there are none. */
  lemma {:induction false} ItemsFit(shapes: seq<Shape>, length: nat, r: nat)
    requires Batches(shapes) && r < |shapes| && ItemDims(shapes, r) + BatchDims(shapes[r]) <= length
    requires ItemDims(shapes, r) <= length < ItemDims(shapes, r) + |shapes[r]| - 1
    ensures Overruns(shapes, length, r)
  {
    if shapes[r][0] > 0 {
      MulGrows(1, shapes[r][0], |shapes[r]| - 1);
    }
  }

  lemma {:induction false} NoItems(shapes: seq<Shape>, all: seq<int>)
    requires Batches(shapes)
    ensures ItemCells(shapes, 0) == [] && ItemDims(shapes, 0) == 0 && Written(shapes, 0, all, all)
  {}

  // ---------------------------------------------------------------------------
  // Shape and data agree
  // ---------------------------------------------------------------------------

  /** Whether the kind's data fits byteSize bytes. */
  predicate Suffices(kind: Kind, shapes: seq<Shape>, byteSize: int)
    requires kind.BatchItemShape? || kind.BatchItemShapeFlatten? ==> Batches(shapes)
  {
    match kind
    case BatchElementCount => |shapes| * INT_SIZE <= byteSize
    case BatchAccumulatedElementCount => |shapes| * INT_SIZE <= byteSize
    case BatchAccumulatedElementCountWithZero => INT_SIZE + |shapes| * INT_SIZE <= byteSize
    case BatchMaxElementCountAsShape => true
    case BatchItemShape => ItemDims(shapes, |shapes|) * INT_SIZE <= byteSize
    case BatchItemShapeFlatten => ItemDims(shapes, |shapes|) * INT_SIZE <= byteSize
  }

  /** The kind's first cell is written before anything is checked, and so is one item of
      an empty batch: the writes that may go behind the end of the buffer. */
  predicate WritesOutside(kind: Kind, shapes: seq<Shape>, length: nat)
    requires kind.BatchItemShape? || kind.BatchItemShapeFlatten? ==> Batches(shapes)
  {
    match kind
    case BatchAccumulatedElementCountWithZero => length == 0
    case BatchItemShape => length == 0 || OverrunsSomewhere(shapes, length)
    case BatchItemShapeFlatten => length == 0 || OverrunsSomewhere(shapes, length)
    case _ => false
  }

  /** Fills in the index data of a batch input.  overrun says that the code writes
      behind the end of the buffer; nothing is said about what comes of that. */
  method ProcessBatchInput(kind: Kind, shapes: seq<Shape>, buffer: array<int>, byteSize: nat)
    returns (ok: bool, overrun: bool)
    requires Holds(buffer, byteSize)
    requires kind.BatchItemShape? || kind.BatchItemShapeFlatten? ==> Batches(shapes)
    modifies buffer
    ensures overrun <==> WritesOutside(kind, shapes, buffer.Length)
    ensures if overrun then !ok else ok <==> Suffices(kind, shapes, byteSize)
    ensures ok && kind.BatchElementCount? ==>
              forall i | 0 <= i < buffer.Length :: buffer[i] == if i < |shapes| then ToInt(ElementCount(shapes[i])) else 0
    ensures ok && kind.BatchAccumulatedElementCount? ==>
              forall i | 0 <= i < buffer.Length ::
                buffer[i] == ToInt(Accumulated(shapes, if i < |shapes| then i + 1 else |shapes|))
    ensures ok && kind.BatchAccumulatedElementCountWithZero? ==>
              forall i | 0 <= i < buffer.Length ::
                buffer[i] == ToInt(Accumulated(shapes, if i <= |shapes| then i else |shapes|))
    ensures ok && (kind.BatchItemShape? || kind.BatchItemShapeFlatten?) ==> ItemCells(shapes, |shapes|) <= buffer[..]
    ensures kind.BatchMaxElementCountAsShape? ==> buffer[..] == old(buffer[..])
  {
    overrun := false;
    match kind {
      case BatchElementCount =>
        ok := SetElementCount(shapes, buffer, byteSize);
      case BatchAccumulatedElementCount =>
        ok := SetAccumulatedElementCount(shapes, buffer, 0, byteSize);
      case BatchAccumulatedElementCountWithZero =>
        if buffer.Length == 0 {
          return false, true;
        }
        buffer[0] := 0;
        ok := SetAccumulatedElementCount(shapes, buffer, 1, byteSize - INT_SIZE);
      case BatchMaxElementCountAsShape =>
        ok := true;
      case BatchItemShape =>
        if buffer.Length == 0 {
          return false, true;
        }
        buffer[0] := 0;
        ok, overrun := SetBatchItemShape(shapes, buffer, byteSize);
      case BatchItemShapeFlatten =>
        if buffer.Length == 0 {
          return false, true;
        }
        buffer[0] := 0;
        ok, overrun := SetBatchItemShape(shapes, buffer, byteSize);
    }
  }

  /** A kind's data fits exactly the buffers that are no smaller than the kind's shape with
      elements of four bytes, except that a kind without data fits any; and item shapes
      fill a buffer of that size to its end. */
  lemma {:induction false} SizedBufferSuffices(kind: Kind, shapes: seq<Shape>, shape: Shape, byteSize: int)
    requires kind.BatchItemShape? || kind.BatchItemShapeFlatten? ==> Batches(shapes)
    requires kind.BatchItemShape? ==> EqualRanks(shapes)
    requires match kind
             case BatchElementCount => shape == [|shapes|]
             case BatchAccumulatedElementCount => shape == [|shapes|]
             case BatchAccumulatedElementCountWithZero => shape == [|shapes| + 1]
             case BatchMaxElementCountAsShape => shape == [Largest(shapes, |shapes|)]
             case BatchItemShape => shape == [Items(shapes, |shapes|), if shapes == [] then 0 else |shapes[|shapes| - 1]| - 1]
             case BatchItemShapeFlatten => shape == [ItemDims(shapes, |shapes|)]
    ensures Suffices(kind, shapes, byteSize) <==> kind.BatchMaxElementCountAsShape? || GetByteSize(4, shape) <= byteSize
    ensures kind.BatchItemShape? || kind.BatchItemShapeFlatten? ==>
              GetByteSize(4, shape) == |ItemCells(shapes, |shapes|)| * 4
  {
    LargestBounds(shapes, |shapes|);
    if kind.BatchItemShape? || kind.BatchItemShapeFlatten? {
      ItemCellsSize(shapes, |shapes|);
    }
    if kind.BatchItemShape? {
      ItemsTimesRank(shapes, |shapes|);
      TwoDimensions(shape[0], shape[1]);
    } else {
      OneDimension(shape[0]);
    }
  }

  /** But when the last batch is empty, a buffer of just that size is overrun. */
  lemma {:induction false} EmptyLastOverruns(shapes: seq<Shape>, length: nat)
    requires shapes != [] && Batches(shapes) && length == ItemDims(shapes, |shapes|)
    requires |shapes[|shapes| - 1]| > 1 && shapes[|shapes| - 1][0] == 0
    ensures OverrunsSomewhere(shapes, length)
  {
    ItemCellsStep(shapes, |shapes| - 1);
    assert Overruns(shapes, length, |shapes| - 1);
  }

  lemma {:induction false} OneDimension(n: int)
    requires n >= 0
    ensures GetByteSize(INT_SIZE, [n]) == n * INT_SIZE
  {}

  lemma {:induction false} TwoDimensions(n: int, d: int)
    requires n >= 0 && d >= 0
    ensures GetByteSize(INT_SIZE, [n, d]) == n * d * INT_SIZE
  {
    OneDimension(n);
    assert [n, d][..1] == [n];
    assert Product([n, d]) == Product([n]) * d;
  }

  lemma {:induction false} ItemsTimesRank(shapes: seq<Shape>, n: nat)
    requires n <= |shapes| && Batches(shapes) && EqualRanks(shapes)
    ensures Items(shapes, n) >= 0
    ensures shapes != [] ==> ItemDims(shapes, n) == Items(shapes, n) * (|shapes[|shapes| - 1]| - 1)
    ensures shapes == [] ==> ItemDims(shapes, n) == 0
  {
    if n > 0 {
      ItemsTimesRank(shapes, n - 1);
      var d := |shapes[|shapes| - 1]| - 1;
      assert |shapes[n - 1]| == |shapes[|shapes| - 1]|;
      assert (Items(shapes, n - 1) + shapes[n - 1][0]) * d == Items(shapes, n - 1) * d + shapes[n - 1][0] * d;
    }
  }

  lemma {:induction false} AccumulatedGrows(shapes: seq<Shape>, i: nat, j: nat)
    requires i <= j <= |shapes| && forall k | 0 <= k < |shapes| :: ElementCount(shapes[k]) >= 0
    ensures 0 <= Accumulated(shapes, i) <= Accumulated(shapes, j)
  {
    if i < j {
      AccumulatedGrows(shapes, i, j - 1);
    } else if i > 0 {
      AccumulatedGrows(shapes, i - 1, j - 1);
    }
  }

  /** The index data of the kind "with zero" delimits the requests in the gathered
      tensor: request i has exactly the elements from entry i up to entry i + 1. */
  lemma {:induction false} EntriesDelimit(reqs: seq<Request>, shapes: seq<Shape>, typeSize: nat, entries: seq<int>,
                                          i: nat)
    requires |reqs| == |shapes| && |entries| == |shapes| + 1 && i <= |shapes|
    requires forall k | 0 <= k < |shapes| ::
               ElementCount(shapes[k]) >= 0 && Total(PiecesOf(reqs[k], k)) == ElementCount(shapes[k]) * typeSize
    requires Accumulated(shapes, |shapes|) < INT_LIMIT
    requires forall k | 0 <= k < |entries| :: entries[k] == ToInt(Accumulated(shapes, k))
    ensures entries[0] == 0 && Offset(reqs, i) == entries[i] * typeSize
    ensures i < |shapes| ==> entries[i + 1] - entries[i] == ElementCount(shapes[i])
  {
    hide Offset, ElementCount, Accumulated;
    AccumulatedGrows(shapes, i, |shapes|);
    AccumulatedOffset(reqs, shapes, typeSize, i);
    assert entries[i] == Accumulated(shapes, i);
    NothingBefore(shapes);
    if i < |shapes| {
      AccumulatedGrows(shapes, i + 1, |shapes|);
      AccumulatedStep(shapes, i);
      assert entries[i + 1] == Accumulated(shapes, i + 1);
    }
  }

  lemma {:induction false} NothingBefore(shapes: seq<Shape>)
    ensures Accumulated(shapes, 0) == 0
  {}

  lemma {:induction false} AccumulatedStep(shapes: seq<Shape>, i: nat)
    requires i < |shapes|
    ensures Accumulated(shapes, i + 1) == Accumulated(shapes, i) + ElementCount(shapes[i])
  {}

  /** Requests start where the element counts of the ones before them say. */
  lemma {:induction false} AccumulatedOffset(reqs: seq<Request>, shapes: seq<Shape>, typeSize: nat, i: nat)
    requires |reqs| == |shapes| && i <= |shapes|
    requires forall k | 0 <= k < |shapes| :: Total(PiecesOf(reqs[k], k)) == ElementCount(shapes[k]) * typeSize
    ensures Offset(reqs, i) == Accumulated(shapes, i) * typeSize
  {
    hide Offset, ElementCount;
    if i > 0 {
      AccumulatedOffset(reqs, shapes, typeSize, i - 1);
      OffsetStep(reqs, i - 1);
      MulAdd(Accumulated(shapes, i - 1), ElementCount(shapes[i - 1]), typeSize);
    } else {
      FirstOffset(reqs);
    }
  }
}

/** Model of the planning lambda of the step-function-map-io example: it splits the
    input's resource paths into consecutive chunks of at most `size` paths and emits
    one map-state task per chunk. The chunk size, read from the environment in the
    deployed code, is a parameter here. */
module BatchLambda {

  /** The only exception modelled: Python's `range` refuses a zero step
      ("range() arg 3 must not be zero"). */
  datatype Error = RangeStepZero

  datatype Result<T> = Ok(value: T) | Err(error: Error)

  /** Chunk size used when the environment does not set MAX_CONCURRENCY. */
  const DefaultMaxConcurrency: int := 5

  /** The part of the input that every task receives unchanged. */
  datatype BatchPayload = BatchPayload(BaseUrl: string, LambdaConcur: string)

  /** The lambda's input event. */
  datatype InputPayload = InputPayload(BaseUrl: string, LambdaConcur: string, ResourcePaths: seq<string>)

  /** One work item of the map state: a chunk of paths and the shared batch input. */
  datatype BatchResources = BatchResources(ResourcePaths: seq<string>, BatchInput: BatchPayload)

  /** The lambda's result. */
  datatype OutputPayload = OutputPayload(Tasks: seq<BatchResources>)

  function Min(a: int, b: int): int { if a <= b then a else b }

  // ---------------------------------------------------------------------------
  // Arithmetic: the number of chunks is a ceiling division
  // ---------------------------------------------------------------------------

  /** `ceil(n / d)`, counted one `d` at a time. */
  function CeilDiv(n: nat, d: int): (q: nat)
    requires d > 0
    ensures n == 0 <==> q == 0
    ensures q <= n
  {
    if n == 0 then 0 else if n <= d then 1 else 1 + CeilDiv(n - d, d)
  }

  /** `i * d`, written as repeated addition so that the proofs below stay linear. */
  function Offset(i: nat, d: nat): nat {
    if i == 0 then 0 else Offset(i - 1, d) + d
  }

  lemma {:induction false} OffsetIsProduct(i: nat, d: nat)
    ensures Offset(i, d) == i * d
  {
    if i > 0 {
      OffsetIsProduct(i - 1, d);
      assert (i - 1) * d + d == i * d;
    }
  }

  /** Every multiple of `d` counted before the ceiling of `n / d` lies below `n`. */
  lemma {:induction false} OffsetBelow(k: nat, n: nat, d: int)
    requires d > 0 && k < CeilDiv(n, d)
    ensures Offset(k, d) < n
    decreases k
  {
    if k > 0 {
      OffsetBelow(k - 1, n - d, d);
    }
  }

  /** CeilDiv counts the multiples of `d` needed to reach `n`, in repeated-addition form. */
  lemma {:induction false} CeilDivReaches(n: nat, d: int)
    requires d > 0
    ensures n <= Offset(CeilDiv(n, d), d)
    ensures CeilDiv(n, d) > 0 ==> Offset(CeilDiv(n, d) - 1, d) < n
    decreases n
  {
    if n > d {
      CeilDivReaches(n - d, d);
    }
  }

  /** CeilDiv is the ceiling of the quotient: the least `q` with `n <= q * d`. */
  lemma CeilDivIsCeiling(n: nat, d: int)
    requires d > 0
    ensures n <= CeilDiv(n, d) * d
    ensures CeilDiv(n, d) > 0 ==> (CeilDiv(n, d) - 1) * d < n
  {
    CeilDivReaches(n, d);
    OffsetIsProduct(CeilDiv(n, d), d);
    if CeilDiv(n, d) > 0 {
      OffsetIsProduct(CeilDiv(n, d) - 1, d);
    }
  }

  // ---------------------------------------------------------------------------
  // The Python built-ins `partition` is written with
  // ---------------------------------------------------------------------------

  /** `range(0, stop, step)` where `stop` is a length. A positive step gives the
      ceil(stop / step) values `k * step`, all below `stop`; a zero step raises; a negative
      step counts down from 0 while above `stop >= 0` and so yields nothing. */
  function Range(stop: nat, step: int): (r: Result<seq<nat>>)
    ensures r.Err? <==> step == 0
    ensures step < 0 ==> r == Ok([])
    ensures step > 0 ==> r.Ok? && |r.value| == CeilDiv(stop, step)
    ensures step > 0 ==> forall k :: 0 <= k < |r.value| ==> r.value[k] == Offset(k, step) < stop
  {
    if step == 0 then Err(RangeStepZero)
    else if step < 0 then Ok([])
    else
      var values := seq(CeilDiv(stop, step), k requires 0 <= k => Offset(k, step));
      assert forall k :: 0 <= k < |values| ==> values[k] < stop by {
        forall k | 0 <= k < |values| ensures values[k] < stop {
          OffsetBelow(k, stop, step);
        }
      }
      Ok(values)
  }

  /** Python's `xs[lo:hi]` for `lo >= 0` and `hi >= 0`: both bounds are clipped to the list
      and an inverted range is empty. (A negative `hi` would count from the end of the list;
      partition never passes one.) */
  function Slice<T>(xs: seq<T>, lo: nat, hi: int): seq<T> {
    if lo >= |xs| || hi <= lo then [] else xs[lo..Min(hi, |xs|)]
  }

  /** Element by element, a slice holds the `min(hi, |xs|) - lo` elements of `xs` from `lo`
      on, or none when `lo` is past the end or not below `hi`. */
  lemma SliceElements<T>(xs: seq<T>, lo: nat, hi: int)
    ensures |Slice(xs, lo, hi)| == if lo < |xs| && lo < hi then Min(hi, |xs|) - lo else 0
    ensures forall j :: 0 <= j < |Slice(xs, lo, hi)| ==> Slice(xs, lo, hi)[j] == xs[lo + j]
  {
  }

  /** The concatenation of a list of chunks, in order. */
  function Flatten<T>(ss: seq<seq<T>>): seq<T> {
    if ss == [] then [] else ss[0] + Flatten(ss[1..])
  }

  // ---------------------------------------------------------------------------
  // partition
  // ---------------------------------------------------------------------------

  /** `partition(xs, size)`: the slices `xs[i:i+size]` for every `i` in `range(0, len(xs), size)`. */
  function Partition<T>(xs: seq<T>, size: int): (r: Result<seq<seq<T>>>)
    ensures r.Err? <==> size == 0
    ensures size < 0 ==> r == Ok([])
    ensures size > 0 ==> r.Ok? && |r.value| == CeilDiv(|xs|, size)
  {
    match Range(|xs|, size)
    case Err(e) => Err(e)
    case Ok(starts) =>
      var chunks := seq(|starts|, k requires 0 <= k < |starts| => Slice(xs, starts[k], starts[k] + size));
      assert size < 0 ==> chunks == [];
      Ok(chunks)
  }

  /** Chunk `i` of partition is the slice at the `i`-th start of the range, with offsets
      written as repeated addition; PartitionChunkAt states it with products. */
  lemma PartitionChunkAtOffset<T>(xs: seq<T>, size: int, i: nat)
    requires size > 0 && i < |Partition(xs, size).value|
    ensures Offset(i, size) < |xs|
    ensures Partition(xs, size).value[i] == xs[Offset(i, size)..Min(Offset(i, size) + size, |xs|)]
  {
  }

  /** Chunk `i` of partition is the slice of `xs` from `i * size` to `(i + 1) * size`,
      cut short at the end of `xs`; its start lies inside `xs`. */
  lemma PartitionChunkAt<T>(xs: seq<T>, size: int, i: nat)
    requires size > 0 && i < |Partition(xs, size).value|
    ensures i * size < |xs|
    ensures Partition(xs, size).value[i] == xs[i * size..Min(i * size + size, |xs|)]
  {
    PartitionChunkAtOffset(xs, size, i);
    OffsetIsProduct(i, size);
  }

  /** What a correct split of `xs` into chunks of `size` looks like, independently of how
      `partition` computes it: the chunks concatenate back to `xs`, none is empty or longer
      than `size`, and all but the last are full. */
  ghost predicate IsChunking<T>(ss: seq<seq<T>>, xs: seq<T>, size: int) {
    && Flatten(ss) == xs
    && (forall i :: 0 <= i < |ss| ==> 0 < |ss[i]| <= size)
    && (forall i :: 0 <= i < |ss| - 1 ==> |ss[i]| == size)
  }

  /** A list of at most `size` elements is one chunk (none if it is empty). */
  lemma PartitionShort<T>(xs: seq<T>, size: int)
    requires size > 0 && |xs| <= size
    ensures Partition(xs, size) == Ok(if xs == [] then [] else [xs])
  {
    var p := Partition(xs, size).value;
    if xs != [] {
      assert |p| == 1;
      PartitionChunkAtOffset(xs, size, 0);
      assert p[0] == xs[0..|xs|] == xs;
      assert p == [xs];
    } else {
      assert p == [];
    }
  }

  /** Slicing the tail after `d` elements is slicing `xs` shifted by `d`. */
  lemma SliceOfTail<T>(xs: seq<T>, d: nat, a: nat, len: nat)
    requires d + a < |xs|
    ensures xs[d..][a..Min(a + len, |xs| - d)] == xs[d + a..Min(d + a + len, |xs|)]
  {
  }

  /** Past the first chunk, the chunks of a list longer than `size` are those of its tail
      after `size` elements. */
  lemma PartitionPeelAt<T>(xs: seq<T>, size: int, i: nat)
    requires size > 0 && |xs| > size && 1 <= i < |Partition(xs, size).value|
    ensures i - 1 < |Partition(xs[size..], size).value|
    ensures Partition(xs, size).value[i] == Partition(xs[size..], size).value[i - 1]
  {
    PartitionChunkAtOffset(xs, size, i);
    PartitionChunkAtOffset(xs[size..], size, i - 1);
    SliceOfTail(xs, size, Offset(i - 1, size), size);
  }

  /** A list longer than `size` splits into its first `size` elements followed by the
      partition of the rest. */
  lemma PartitionPeel<T>(xs: seq<T>, size: int)
    requires size > 0 && |xs| > size
    ensures Partition(xs, size) == Ok([xs[..size]] + Partition(xs[size..], size).value)
  {
    var p, q := Partition(xs, size).value, Partition(xs[size..], size).value;
    assert |p| == 1 + |q|;
    PartitionChunkAtOffset(xs, size, 0);
    forall i | 1 <= i < |p| ensures p[i] == q[i - 1] {
      PartitionPeelAt(xs, size, i);
    }
    assert p == [xs[..size]] + q;
  }

  /** partition is lossless and its chunks are bounded: concatenating them gives back `xs`
      exactly, every chunk holds between 1 and `size` elements, and all but the last are full. */
  lemma {:induction false} PartitionIsChunking<T>(xs: seq<T>, size: int)
    requires size > 0
    ensures Partition(xs, size).Ok?
    ensures IsChunking(Partition(xs, size).value, xs, size)
    decreases |xs|
  {
    if |xs| <= size {
      PartitionShort(xs, size);
      if xs != [] {
        ChunkingSingle(xs, size);
      }
    } else {
      PartitionPeel(xs, size);
      PartitionIsChunking(xs[size..], size);
      ChunkingCons(xs[..size], Partition(xs[size..], size).value, xs[size..], size);
      assert xs[..size] + xs[size..] == xs;
    }
  }

  /** A full chunk in front of a split of `rest` is a split of the concatenation. */
  lemma ChunkingCons<T>(c: seq<T>, q: seq<seq<T>>, rest: seq<T>, size: int)
    requires size > 0 && |c| == size && IsChunking(q, rest, size)
    ensures IsChunking([c] + q, c + rest, size)
  {
    var p := [c] + q;
    assert p[1..] == q;
    assert Flatten(p) == c + Flatten(q);
    assert forall i :: 1 <= i < |p| ==> p[i] == q[i - 1];
  }

  /** A non-empty list of at most `size` elements is a split of itself into one chunk. */
  lemma ChunkingSingle<T>(xs: seq<T>, size: int)
    requires 0 < |xs| <= size
    ensures IsChunking([xs], xs, size)
  {
    assert Flatten([xs]) == xs + Flatten([]);
  }

  /** Conversely, a split with those properties is the one partition computes, so the
      properties above determine partition's result completely. */
  lemma {:induction false} ChunkingIsPartition<T>(ss: seq<seq<T>>, xs: seq<T>, size: int)
    requires size > 0 && IsChunking(ss, xs, size)
    ensures ss == Partition(xs, size).value
    decreases |ss|
  {
    if ss == [] {
      PartitionShort(xs, size);
    } else if |ss| == 1 {
      assert Flatten(ss) == ss[0] + Flatten([]);
      PartitionShort(xs, size);
    } else {
      var rest := ss[1..];
      assert xs == ss[0] + Flatten(rest);
      assert Flatten(rest) == rest[0] + Flatten(rest[1..]);
      assert |xs| > size;
      assert ss[0] == xs[..size];
      assert Flatten(rest) == xs[size..];
      assert forall i :: 0 <= i < |rest| ==> rest[i] == ss[i + 1];
      assert IsChunking(rest, xs[size..], size);
      ChunkingIsPartition(rest, xs[size..], size);
      PartitionPeel(xs, size);
    }
  }

  /** The two directions together: a list of chunks is partition's result exactly when it
      is a lossless, bounded, full-but-the-last split of `xs`. */
  lemma PartitionCharacterised<T>(ss: seq<seq<T>>, xs: seq<T>, size: int)
    requires size > 0
    ensures IsChunking(ss, xs, size) <==> Partition(xs, size) == Ok(ss)
  {
    PartitionIsChunking(xs, size);
    if IsChunking(ss, xs, size) {
      ChunkingIsPartition(ss, xs, size);
    }
  }

  // ---------------------------------------------------------------------------
  // handler
  // ---------------------------------------------------------------------------

  /** `handler(payload, _)` with MAX_CONCURRENCY given as `size`: one task per chunk of the
      payload's ResourcePaths, in chunk order, each with a batch input holding the payload's
      BaseUrl and LambdaConcur and nothing of its ResourcePaths. */
  function Handler(payload: InputPayload, size: int): (r: Result<OutputPayload>)
    ensures r.Err? <==> size == 0
    ensures size < 0 ==> r == Ok(OutputPayload([]))
    ensures size > 0 ==> r.Ok? && |r.value.Tasks| == CeilDiv(|payload.ResourcePaths|, size)
    ensures r.Ok? ==> forall i :: 0 <= i < |r.value.Tasks| ==>
              r.value.Tasks[i].BatchInput == BatchPayload(payload.BaseUrl, payload.LambdaConcur)
  {
    match Partition(payload.ResourcePaths, size)
    case Err(e) => Err(e)
    case Ok(chunks) =>
      var shared := BatchPayload(payload.BaseUrl, payload.LambdaConcur);
      var tasks := seq(|chunks|, i requires 0 <= i < |chunks| => BatchResources(chunks[i], shared));
      assert forall i :: 0 <= i < |tasks| ==> tasks[i].BatchInput == shared;
      Ok(OutputPayload(tasks))
  }

  /** The ResourcePaths of each task, in task order. */
  function TaskPaths(tasks: seq<BatchResources>): seq<seq<string>> {
    seq(|tasks|, i requires 0 <= i < |tasks| => tasks[i].ResourcePaths)
  }

  /** For a positive size the tasks are exactly partition's chunks, in order, so their
      paths concatenate back to the input's ResourcePaths, each task holds between 1 and
      `size` paths, and all tasks but the last hold exactly `size`. */
  lemma HandlerPlansPartition(payload: InputPayload, size: int)
    requires size > 0
    ensures Handler(payload, size).Ok?
    ensures TaskPaths(Handler(payload, size).value.Tasks) == Partition(payload.ResourcePaths, size).value
    ensures IsChunking(TaskPaths(Handler(payload, size).value.Tasks), payload.ResourcePaths, size)
  {
    PartitionIsChunking(payload.ResourcePaths, size);
    var tasks := Handler(payload, size).value.Tasks;
    assert TaskPaths(tasks) == Partition(payload.ResourcePaths, size).value;
  }

  /** A payload whose ResourcePaths list is empty plans no tasks (for any size partition accepts). */
  lemma HandlerEmpty(payload: InputPayload, size: int)
    requires payload.ResourcePaths == [] && size != 0
    ensures Handler(payload, size) == Ok(OutputPayload([]))
  {
  }

  /** A negative size is accepted but plans no tasks, so every resource path is dropped. */
  lemma NegativeSizeDropsPaths(payload: InputPayload, size: int)
    requires size < 0 && payload.ResourcePaths != []
    ensures Handler(payload, size).Ok?
    ensures Flatten(TaskPaths(Handler(payload, size).value.Tasks)) != payload.ResourcePaths
  {
  }

  /** With the default chunk size, the one deployed, the handler never raises and every
      task holds between one and five paths. */
  lemma DefaultSizePlan(payload: InputPayload)
    ensures Handler(payload, DefaultMaxConcurrency).Ok?
    ensures forall t :: t in Handler(payload, DefaultMaxConcurrency).value.Tasks ==>
              0 < |t.ResourcePaths| <= DefaultMaxConcurrency
  {
    HandlerPlansPartition(payload, DefaultMaxConcurrency);
  }
}

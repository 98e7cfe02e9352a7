# Batch planning lambda of step-function-map-io, in Dafny

The step-function-map-io stack runs a Step Functions workflow in two stages. A
*batch* lambda turns the job input into a worklist. A Map state then hands each
worklist entry to a download lambda, with bounded concurrency. This project models
the batch lambda, `batch_lambda.py`, which does the planning; the download
lambda's code is not modelled (see "## Left out").

- `partition(iterable, size)` splits a list into consecutive chunks of at most
  `size` elements. It is a comprehension over `range(0, len(lst), size)` that takes the
  slice `lst[i:i+size]` at each start.
- `handler(payload, _)` partitions the payload's `ResourcePaths` with the chunk
  size `MAX_CONCURRENCY`. It returns `{"Tasks": [...]}`, one task per chunk. Each
  task carries the chunk as its `ResourcePaths` and a `BatchInput` holding the
  payload's `BaseUrl` and `LambdaConcur`.

The model is one module, `BatchLambda` in `batch_lambda.dfy`. The TypedDicts
`BatchPayload`, `InputPayload`, `BatchResources` and `OutputPayload` are datatypes
with the same field names. Python's `ValueError` from `range` is the `Err` side of
a `Result`. Both functions are pure and are modelled as Dafny functions. The
Python built-ins they use are modelled too: `Range` for `range(0, n, step)`,
`Slice` for `lst[lo:hi]` with its clipping at the list end.

The chunk size is a parameter `size: int`, in place of the module-level
`MAX_CONCURRENCY`. The code reads that value with `int(os.getenv(...) or 5)` and
never checks its sign, so all three cases are modelled as the code behaves:

- `size > 0`: the normal plan.
- `size == 0`: `range` raises `ValueError`, and the handler fails.
- `size < 0`: `range(0, n, size)` is empty. The handler returns no tasks and
  drops every resource path.

In the deployed stack the lambda runs with the default size 5:
`step-function-map-io-stack.ts` sets `MAX_CONCURENCY` (misspelled), and the lambda
reads `MAX_CONCURRENCY`.

What is proved, for a positive size:

- Partition is lossless. Concatenating the chunks in order gives back the input
  exactly, so nothing is lost, duplicated or reordered.
- Every chunk holds between 1 and `size` elements. Every chunk but the last holds
  exactly `size`.
- Chunk `i` is `xs[i*size .. min((i+1)*size, |xs|)]`.
- There are `ceil(|xs| / size)` chunks. The count is 0 exactly when the input is
  empty.
- These properties characterise the result completely. A list of chunks is
  partition's result if and only if it has them (`PartitionCharacterised`).
- The handler plans exactly partition's chunks, in order, one task per chunk.
  Every task's `BatchInput` is the payload's `BaseUrl` and `LambdaConcur`.

## Model

| member | source | states |
|---|---|---|
| `BatchLambda.CeilDiv` | step-function-map-io/lambdas/batch-lambda/batch_lambda.py:33 | the number of starts `range(0, n, size)` yields is 0 exactly when `n` is 0, and never more than `n` |
| `BatchLambda.CeilDivIsCeiling` | step-function-map-io/lambdas/batch-lambda/batch_lambda.py:33 | that count is the ceiling of `n / size`: the least `q` with `n <= q * size` |
| `BatchLambda.Range` | step-function-map-io/lambdas/batch-lambda/batch_lambda.py:33 | `range(0, len(lst), size)` raises exactly when `size` is 0 and is empty for a negative size; for a positive size it yields ceil(len / size) starts `k * size`, all inside the list |
| `BatchLambda.SliceElements` | step-function-map-io/lambdas/batch-lambda/batch_lambda.py:33 | the slice `lst[lo:hi]` (with `lo, hi >= 0`) holds `min(hi, len) - lo` elements, element `j` being `lst[lo + j]`, and is empty when `lo` is past the end or not below `hi` |
| `BatchLambda.Partition` | step-function-map-io/lambdas/batch-lambda/batch_lambda.py:31-33 | partition fails (ValueError) exactly when `size` is 0, returns no chunks for a negative size, and returns ceil(len / size) chunks for a positive size |
| `BatchLambda.PartitionChunkAt` | step-function-map-io/lambdas/batch-lambda/batch_lambda.py:33 | chunk `i` starts inside the list and equals `xs[i*size .. min((i+1)*size, len)]` |
| `BatchLambda.PartitionShort` | step-function-map-io/lambdas/batch-lambda/batch_lambda.py:33 | a list of at most `size` elements gives one chunk holding all of it, or no chunk if it is empty |
| `BatchLambda.PartitionPeel` | step-function-map-io/lambdas/batch-lambda/batch_lambda.py:33 | a longer list gives its first `size` elements as one chunk, followed by the chunks of the rest |
| `BatchLambda.PartitionIsChunking` | step-function-map-io/lambdas/batch-lambda/batch_lambda.py:31-33 | the chunks concatenate back to the input exactly; each holds 1 to `size` elements; all but the last hold exactly `size` |
| `BatchLambda.ChunkingIsPartition` | step-function-map-io/lambdas/batch-lambda/batch_lambda.py:31-33 | any split with those three properties is partition's result |
| `BatchLambda.PartitionCharacterised` | step-function-map-io/lambdas/batch-lambda/batch_lambda.py:31-33 | a list of chunks is partition's result if and only if it is such a split |
| `BatchLambda.Handler` | step-function-map-io/lambdas/batch-lambda/batch_lambda.py:42-54 | the handler fails exactly when `size` is 0; it returns no tasks for a negative size and ceil(len / size) tasks for a positive one; every task's BatchInput is the payload's BaseUrl and LambdaConcur, with no ResourcePaths in it |
| `BatchLambda.HandlerPlansPartition` | step-function-map-io/lambdas/batch-lambda/batch_lambda.py:42-54 | for a positive size, task `i` carries chunk `i` of partition; the tasks' paths concatenate back to the input paths; each task holds 1 to `size` paths and all but the last exactly `size` |
| `BatchLambda.HandlerEmpty` | step-function-map-io/lambdas/batch-lambda/batch_lambda.py:42-54 | a payload whose `ResourcePaths` list is empty plans no tasks, for any nonzero size |
| `BatchLambda.NegativeSizeDropsPaths` | step-function-map-io/lambdas/batch-lambda/batch_lambda.py:51-53 | a negative MAX_CONCURRENCY does not raise; its plan loses every resource path of a non-empty input |
| `BatchLambda.DefaultSizePlan` | step-function-map-io/lambdas/batch-lambda/batch_lambda.py:6-7 | with the default size 5 the handler never raises, and every task holds 1 to 5 paths |

## Left out

- Reading `MAX_CONCURRENCY` from the environment, and `int()` parsing of it (batch_lambda.py:7), are left out. The chunk size is the parameter `size`, and the model covers every integer value it can take.
- Logging and JSON dumping of the payload (batch_lambda.py:37-40) are I/O with no effect on the result. The unused context argument `_` is dropped.
- Missing keys are not modelled; `InputPayload` always has all three fields. A payload without `ResourcePaths` always makes the handler raise `KeyError` (batch_lambda.py:52). `BaseUrl` and `LambdaConcur` are read once per chunk (batch_lambda.py:47-48), so a payload missing one of them raises `KeyError` only when there is at least one chunk. With no chunks (empty `ResourcePaths` or a negative size) it returns `{"Tasks": []}`, and with size 0 `range` raises `ValueError` first.
- Other exceptions are not modelled either, such as the `TypeError` raised when `ResourcePaths` is not iterable (JSON `null`).
- `partition` accepts any iterable and consumes it with `list(...)`. The model takes a finite sequence. `ResourcePaths` entries are strings, as the TypedDict declares.
- The CDK stack (step-function-map-io-stack.ts) is not part of this model: the S3 bucket, lambda packaging, IAM grant and state-machine wiring are declarative provisioning.
- The Map state's bounded concurrency, per-task timeouts, retries and ordered aggregation of results run inside the managed Step Functions engine. No code in batch_lambda.py implements them.
- The download lambda the Map state invokes is not part of this model. It is network and S3 I/O.

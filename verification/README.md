# SnowpipeREST load generator — a Dafny model of its core

The load generator starts a pool of workers. Each worker loops: it picks a
target endpoint, picks a random batch of the JSON records loaded at start-up,
and posts the batch to that endpoint. This project models the three pieces
of logic behind one such step:

- the weighted endpoint choice `selectEndpoint`: the primary endpoint 80% of
  the time, otherwise a uniformly chosen secondary one;
- the batch sampler `selectRandomEntries`: five to ten records drawn without
  replacement. The model also covers what the sampler does to its caller's
  memory. Its in-place `append` deletion shifts records inside the array the
  caller's slice shares, so the model includes that;
- the worker count: ten, unless `NUM_WORKERS` parses as an integer. Ranging
  over that count starts the workers.

Random draws are parameters:
- `belowCut` stands for `rand.Float64() < 0.8`;
- `k` for `rand.Intn(len - 1)`;
- `sizeDraw` for `rand.Intn(6)`;
- `picks[i]` for the i-th `rand.Intn(len(entries))`.

Each is constrained only by what `rand.Intn` promises: a value in `[0, m)`.

A Go panic is an explicit outcome, not a precondition (`Result.Panicked`).

The modules are:
- `Prelude`: Option, Result, Panic, Min.
- `Endpoints`: the ten targets and `selectEndpoint`.
- `Sampling`: a pure account of the draw.
- `Backing`: the effect of the in-place deletions on the caller's array.
- `SharedSlice`: the sampler as a loop over an array, plus the corrected sampler.
- `Config`: `strconv.Atoi` and the worker count.
- `Workers`: worker start-up and one iteration of a worker.

## Model

| member | source | states |
|---|---|---|
| Endpoints.SelectIndex | main.go:106-111 | Succeeds exactly when there is at least one endpoint (primary branch) or at least two (secondary branch). The index is below the count. It is 0 exactly on the primary branch. On the secondary branch it is draw + 1. Otherwise: an index-out-of-range panic (primary) or an `Intn` panic (secondary). |
| Endpoints.SelectEndpoint | main.go:106-111 | The endpoint returned is a member of the list. It is `endpoints[0]` when the draw is below 0.8. Otherwise it is `endpoints[k+1]`, with 1 <= k+1 < len, so never the primary. Fewer than two endpoints panic on the secondary branch. |
| Endpoints.SecondaryIsBijection | main.go:110 | Secondary draws 0..len-2 map one-to-one onto indices 1..len-1. So a uniform `Intn` makes every secondary endpoint equally likely. |
| Endpoints.SingleEndpointPanics | main.go:110 | With one endpoint, the secondary branch calls `rand.Intn(0)` and panics. The primary branch returns the endpoint. |
| Endpoints.TargetsNeverPanic | main.go:30-41 | With the ten configured targets, no draw panics. The primary branch returns TABLE_A. |
| Sampling.BatchSize | main.go:114 | The requested size `rand.Intn(6) + 5` lies in [5, 10]. |
| Sampling.BatchSizeOnto | main.go:114 | Every size in [5, 10] comes from exactly one `Intn(6)` draw. |
| Sampling.Draw | main.go:113-122 | The batch holds min(n, len) records. The records left behind are the rest. It is empty for an empty dataset. |
| Sampling.DrawPermutes | main.go:116-120 | Batch and rest together are a permutation of the input records (multiset equality). |
| Sampling.DrawMembers | main.go:118 | Every record drawn or left behind was in the input. |
| Sampling.SmallDatasetTakesAll | main.go:116 | With at most five records, whatever size was drawn, the batch is a permutation of all of them. |
| Sampling.DrawSnoc | main.go:117-119 | Iteration i+1 appends the entry at the i-th draw of what iterations 1..i left. It removes that entry from there, keeping the others' order. |
| Sampling.WithoutReplacement | main.go:116-120 | Batch and rest are the records at two sets of positions. Together these name every index exactly once, so no record is drawn twice. The positions kept stay in their original order. |
| Backing.ShiftDelete | main.go:119 | One `append(entries[:idx], entries[idx+1:]...)` in the shared array: the first len-1 cells hold the slice without position idx, in order, and cells from len-1 on are untouched. |
| Backing.Stranded | main.go:119 | There is one stranded value per deletion, min(n, len) in all. The highest of them is the original last record. |
| Backing.StrandedSnoc | main.go:116-120 | Iteration i+1 strands the last record that iterations 1..i left, just below the values stranded before. |
| Backing.ShiftDeleteLayout | main.go:119 | When the array holds the live slice followed by values stranded earlier, one in-place deletion leaves the slice minus position idx, then the slice's old last record, then the earlier stranded values. |
| Backing.CallerAfter | main.go:113-122 | The caller's slice keeps its length after the call: only the header local to the call shrinks. |
| Backing.CallerLayout | main.go:113-122 | After a call that drew m records, the caller's slice (CallerAfter) holds three things. Cells 0..L-m-1 hold the unchosen records in their original order. Cells L-m..L-1 hold the stranded values. The last cell keeps its record. |
| Backing.SharedRecordsCorrupted | main.go:119 | Counterexample. Records [1,2,3] with draws 0,0,0 yield the correct batch [1,2,3], but leave the caller's records as [3,3,3]. |
| Backing.SecondCallRepeatsRecord | main.go:94-96 | Counterexample. The next call on the same slice returns [3,3,3], although the loaded records were distinct. |
| SharedSlice.DeleteInPlace | main.go:119 | The loop moving cells idx+1..len-1 one place left leaves the array equal to ShiftDelete of its old contents. |
| SharedSlice.DrawOneInPlace | main.go:117-119 | One iteration on the array reads the entry at the drawn index and deletes it in place. The result is one more step of Draw for the batch and of CallerAfter for the array. |
| SharedSlice.DrawInPlace | main.go:116-120 | The loop on the caller's array returns exactly the batch the pure Draw describes. It leaves the array as CallerAfter describes: rest in front, stranded values behind. This holds whether the loop stops after n iterations or on an empty slice. |
| SharedSlice.SelectRandomEntries | main.go:113-122 | The loop over the caller's array returns Draw's batch, of size min(n, len), drawn from the records. It leaves the array with the rest in front and the stranded values behind. The last cell is unchanged. |
| SharedSlice.SelectRandomEntriesFromCopy | main.go:113-122 | The corrected sampler returns the same batch as SelectRandomEntries for the same draws. It does not modify the caller's records. |
| Config.Atoi | main.go:27 | A parsed value lies in the int64 range. The empty string (an unset variable) is an error. A parsed string contains a digit. |
| Config.AtoiItoa | main.go:27 | Every int64 written in decimal parses back to itself. |
| Config.AtoiRejectsStray | main.go:27 | A non-digit anywhere except a leading sign makes the string an error: no trimming, no early stop. |
| Config.WorkerCount | main.go:26-29 | The count is either the default 10 or exactly the value Atoi accepted. When Atoi accepts, the parsed value is used. |
| Config.WorkerCountFallsBack | main.go:26-29 | "", "+", "-", " 4" and "4 " all give the default of ten workers. |
| Config.WorkerCountRoundTrip | main.go:26-29 | Any int64 written in decimal, optionally with a leading plus, becomes the worker count. Zero and negative values are included. |
| Config.WorkerCountOutOfRange | main.go:26-29 | A decimal beyond the int64 range gives the default. |
| Workers.StartWorkers | main.go:87 | Ranging over numWorkers starts workers 0..numWorkers-1 in order, and none when numWorkers <= 0. |
| Workers.Iterate | main.go:94-96 | One worker iteration over the ten targets never panics. It targets TABLE_A exactly when the draw is below 0.8. It sends min(size, len) records, between 5 and 10 when at least five are loaded, each taken at most as often as it occurs. The records are not modified. |

## Left out

- `downloadFile` and the Cloud Storage client: I/O against an external service.
- Parsing the JSONL data file: a foreign JSON decoder. Records are an opaque type parameter `T`.
- `postData` and HTTP: network I/O; a request is modelled as the (endpoint, batch) pair it would send.
- Goroutines, the WaitGroup, the context, signal handling, the atomic request counter and the QPS log line (a floating-point division): concurrency, clocks and logging. One worker iteration is modelled, not the loop that repeats it until cancellation.
- `math/rand` itself: each draw is a parameter bounded as `rand.Intn` or `rand.Float64` promise. The 0.8 threshold is the boolean `belowCut`, since no floating point is modelled.
- Workers.Iterate: uses the corrected sampler, not the in-place one. The Go code shares `datas` between all workers and calls the in-place sampler concurrently, a data race the model does not represent. Backing.SecondCallRepeatsRecord shows the sequential consequence.
- Config.Atoi: models Go's `strconv.Atoi` for a 64-bit `int` from its documented behaviour. The standard library's source is not part of this model.
- The local slice's length is the array length minus the iteration count in the model; Go keeps it in the slice header. The two are equal at every iteration.

## Findings

| source | as written | input that shows it | evidently intended | confidence | as-written member | corrected member |
|---|---|---|---|---|---|---|
| main.go:119 | `entries = append(entries[:idx], entries[idx+1:]...)` deletes in place. The slice header is a copy, but the backing array is the caller's `datas`, shared by every worker. So each call shifts the shared records, overwrites vacated cells with duplicates, and later batches can repeat one record. | `datas` = [1, 2, 3], `rand.Intn(6)` = 0, index draws 0, 0, 0: the batch is [1, 2, 3], but `datas` becomes [3, 3, 3], and the next call returns [3, 3, 3] | sampling leaves the loaded records unchanged (sample from a copy or by index) | high; not executed | SharedSlice.SelectRandomEntries, Backing.SharedRecordsCorrupted | SharedSlice.SelectRandomEntriesFromCopy |

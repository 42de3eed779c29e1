# Verified model of the inference gateway

A Dafny model of the request pipeline of the Rust gateway (`src/worker_pool.rs`, `src/main.rs`,
`src/metrics.rs`, `src/grpc.rs`) and of the text layer of the C++ inference core
(`cpp_inference/inference_core.cpp`), with proofs about every reachable state, every run and every input.
`dafny verify dfyconfig.toml` checks the whole project.

## What is modelled

**The gateway.** `Gateway.dfy` is a state machine. Its steps are the atomic actions of the handler tasks
(one per HTTP or gRPC call), the single dispatcher and the worker tasks, interleaved in any order; the
atomics are taken as sequentially consistent although the source uses `Relaxed`. The tokio primitives follow
their documented contracts: `forget_permits` removes at most the idle permits, a bounded `mpsc` channel is
first-in first-out and refuses when full, a `timeout` looks at the oneshot channel before the clock, a client
that disconnects drops its handler at the await. The registry lookup, the minted UUIDs, elapsed times and
the replies of the core are nondeterministic. `AdaptiveWorkerPool` and the metrics registry are classes whose
methods are proved against the same functions the state machine uses; `PoolRace.dfy` splits `reconfigure`
into its load, permit and compare-exchange steps for any number of concurrent callers, and shows that the call of
a single caller may be taken as the one step it is in the state machine. `Drivers.dfy` holds the HTTP and the gRPC
handler as two programs of their own, each with its validation, id resolution, metrics calls and answers; the
system built from them has exactly the runs of the state machine. `FrontEnds.dfy` compares the two programs, and
`ClientAnswers.dfy` says what every answer means in terms of the run.

**The core.** `HttpReader.dfy` holds the two-phase request reader over a connection that delivers its bytes in
pieces of any size; `Text.dfy`, `Escaping.dfy` and `FieldFinder.dfy` the string searches, the escapers of both
sides and the field finder; `RoundTrip.dfy` and `CoreResponse.dfy` what a request and its answer keep on the
way through serialiser, finder, escaper and decoder. `NestedOptions.dfy` says which string options the nested search
finds, `RequestBody.dfy` that the gateway's body is JSON for its request. `Service.dfy` puts them together for one connection of the
`/infer` route. `stof` and the printing of floats are arbitrary functions.

## Where the code and its documentation disagree

- The comments promise that the pool caps the concurrently running workers at MAX_CONCURRENCY
  (`src/main.rs:396-400`, `src/worker_pool.rs:9-14`). A shrink forgets idle permits only and ignores how many
  it forgot, so every shrink that finds all permits in use leaves one permit too many for good.
  `PoolCap.CapHoldsExactlyWhen`: the cap holds in all reachable states exactly when
  MIN_CONCURRENCY = MAX_CONCURRENCY or the queue holds fewer than two jobs. Because the measured queue length
  falls by at most one from one dispatch to the next, one shrink never removes more than one permit; the
  excess is therefore at most the number of shrinks, and `PoolCap.BoundIsAttained` reaches it for every number.
- The comment that `reconfigure` never adds or forgets more than needed (`src/worker_pool.rs:69-70`) holds in every
  interleaving exactly when there is at most one caller or MIN_CONCURRENCY = MAX_CONCURRENCY:
  `PoolRace.NeverMoreThanNeededExactlyWhen`. The gateway has one caller.
- The gRPC service is described as mirroring the HTTP API (`src/grpc.rs:1-5`), and the final response as always
  carrying the gateway's request id. gRPC returns that id in every success exactly when the core protocol is
  llama-chat (`RequestIds.GrpcKeepsIdsExactlyWhen`); in the legacy protocol it returns whatever id the core named.
- With a one-second timeout a timed-out request is counted in the last finite latency bucket:
  `GatewayTheorems.TimeoutsMissTheBuckets` is the exact condition.
- The core reads a JSON string up to its first quote character and does not unescape it, so a model or input
  survives exactly when it is non-empty and needs no escaping: `RoundTrip.RequestSurvivesExactlyWhen`. A
  max_tokens beyond the range of int ends the core's process: `Service.GatewayRequestServed`.
- String options inside `"options"` are documented to be picked up (`cpp_inference/inference_core.cpp:198-201`), but the
  search starts behind the opening quote of the first one: a string max_tokens is used exactly when it is not the
  first field, by `RoundTrip.StringCountUsedExactlyWhen`. It is also the one value that is not sanitised
  (`RoundTrip.ParsedIsSane`).
- The reader is described as returning the entire request (`cpp_inference/inference_core.cpp:336-341`). It does
  for a head followed by exactly the declared body; for other streams the result can depend on how the bytes
  are cut into pieces, and `HttpReader.IndependenceExactlyWhen` says for every stream exactly when it does not.
- The gauge of requests being processed (`docs/api.md:65`) keeps counting a request whose client disconnected:
  `GatewayTheorems.DisconnectedClientsStayInFlight`; `Drain.GaugeDrifts` reaches every value with nothing left to do.

## Model

| member | source | states |
|---|---|---|
| WorkerPool.Clamped | src/worker_pool.rs:33-42 | any two numbers become bounds with 1 <= min <= max; bounds already in order are kept, zeros become one, and a min above max becomes max |
| WorkerPool.PlanShape | src/worker_pool.rs:86-90 | the scaling policy is min for an empty queue, monotone, within the bounds, and one worker more for every two queued jobs until max |
| WorkerPool.ReconfigureLedger | src/worker_pool.rs:53-81 | one call sets the size and turns drift (permits beyond the size) into max(drift, held - desired), permits into max(desired + drift, held) |
| WorkerPool.CapSurvivesExactlyWhen | src/worker_pool.rs:9-14 | permits stay equal to the pool size exactly when they were and the call finds no more workers than it allows |
| WorkerPool.WorstExcessIsAttained | src/worker_pool.rs:64-68 | the worst excess of a history bounds every call's excess and is the excess of one of them |
| WorkerPool.AdaptiveWorkerPool.constructor | src/worker_pool.rs:33-42 | a new pool has clamped bounds and exactly min idle permits |
| WorkerPool.AdaptiveWorkerPool.Acquire | src/worker_pool.rs:45-47 | one idle permit moves to a worker; the ledger is kept |
| WorkerPool.AdaptiveWorkerPool.Release | src/main.rs:437 | one held permit becomes idle; the ledger is kept |
| WorkerPool.AdaptiveWorkerPool.Reconfigure | src/worker_pool.rs:53-81 | the compare-exchange loop of a single caller ends after at most one round in the state of the specification, and drift becomes the running maximum |
| PoolRace.StepKeeps | src/worker_pool.rs:53-81 | every load, permit update, exchange, acquire and release keeps the interleaved ledger and the stamps of all callers |
| PoolRace.InterleavedLedger | src/worker_pool.rs:53-81 | in every interleaving, ABA included, permits minus size is the un-forgotten shortfall plus the deltas of failed and pending exchanges |
| PoolRace.FailuresPaidBySuccesses | src/worker_pool.rs:57-80 | a caller's exchanges fail no more often than the others' succeed, so a single caller never fails |
| PoolRace.RacingGrowthOvershoots | src/worker_pool.rs:69-79 | whenever the pool can grow, two racing callers can leave max - min permits too many with nobody working |
| PoolRace.NeverMoreThanNeededExactlyWhen | src/worker_pool.rs:69-79 | in every interleaving that has come to rest the permits exceed the size by exactly what was found in use, if and only if there is at most one caller or min = max |
| PoolRace.SoloCallIsAtomic | src/worker_pool.rs:53-81 | a single caller's load, permit update and exchange, with workers taking and dropping permits in between, end as if the whole call happened at the permit update |
| Metrics.FinishRecordsObservation | src/metrics.rs:53-69 | one finish_request makes every counter and every bucket agree with the list of observations extended by one |
| Metrics.AtMostMonotone | src/metrics.rs:14 | the observations up to a smaller bound are no more than those up to a larger one, and at most all |
| Metrics.OutcomesPartition | src/metrics.rs:55-59 | ok, error and timeout observations add up to all |
| Metrics.Registry.BeginRequest | src/metrics.rs:47-50 | both counters go up and the histogram still stands for the same observations |
| Metrics.Registry.RecordLatency | src/metrics.rs:63-68 | the loop adds one to exactly the buckets whose bound is at least the latency |
| Metrics.Registry.FinishRequest | src/metrics.rs:53-69 | the method is the composition of its five atomic steps and keeps bucket i equal to the number of observations up to bound i |
| Metrics.Registry.Render | src/metrics.rs:90-207 | without interference the finite buckets are cumulative and count the observations up to each bound, +Inf is their number and the sum of the three outcomes; every other sample is its counter |
| GatewayInvariants.StepKeeps | src/main.rs:404-440 | every step of every task keeps the counter sums, the handler, pipeline and pool invariants |
| GatewayInvariants.Always | src/main.rs:404-606 | these invariants hold in every reachable state |
| GatewayTheorems.JobConservation | src/main.rs:404-440 | every accepted job is in exactly one of queue, dispatcher, calling worker, answered; dispatch is in acceptance order and at most once; its channel is open exactly while it is in the pipeline |
| GatewayTheorems.SettledByOwnJob | src/main.rs:433-435 | over any run a channel that gets used or closed is so by exactly one step, of the worker that ran the handler's own job |
| GatewayTheorems.ResultsReachTheirOwner | src/main.rs:433-435 | the result a handler ends with is what the one core call of the run made for its own job came back with: an error exactly for a failed call, the decoded response, or the chat completion field by field; "worker task cancelled" means that this job's worker died |
| GatewayTheorems.OneResultPerHandler | src/main.rs:556-593 | over any run a used or closed channel never changes again, nor do a handler's request and id |
| GatewayTheorems.PermitLedger | src/main.rs:412-439 | permits are the pool size plus the worst excess of any resize; the cap is intact exactly when no resize found one; workers are at most the largest reachable size plus the number of shrinks; unfinished jobs at most capacity + 1 + workers |
| PoolCap.LevelUp | src/main.rs:412-439 | from any saturated state one more shrink is reachable that leaves one more worker running |
| PoolCap.BoundIsAttained | src/main.rs:412-439 | for every k a state with k shrinks and the largest size + k calling workers is reachable, whenever the pool can grow |
| PoolCap.CapHoldsExactlyWhen | src/main.rs:396-400 | never more than MAX_CONCURRENCY workers in any reachable state, if and only if min = max or the queue capacity is below two |
| GatewayTheorems.CounterChain | src/metrics.rs:47-69 | in every interleaving requests_total = in_flight + terminals + unsettled calls and terminals = latency_count + unrecorded calls; buckets are nested below the count; equality when no call is mid-way |
| GatewayTheorems.CountersAreSums | src/metrics.rs:47-79 | every counter and bucket is the sum of what each handler has contributed at its program point, refusals included |
| GatewayTheorems.InFlightNeverUnderflows | src/metrics.rs:54 | the decrement always finds at least one |
| GatewayTheorems.DisconnectedClientsStayInFlight | src/metrics.rs:47-54 | with nobody in flight the gauge equals the number of disconnected clients, so it is zero if and only if no client ever disconnected |
| GatewayTheorems.NeverBackToZero | src/metrics.rs:47-54 | after one disconnected client the gauge is at least one in every later state |
| Drain.GaugeDrifts | src/metrics.rs:47-54 | for every n a drained state with no handler at work and n in flight is reachable |
| GatewayTheorems.RenderSkew | src/metrics.rs:90-93 | a rendered finite bucket exceeds the rendered +Inf by at most the histogram updates between the two reads |
| GatewayTheorems.TimedOutWork | src/main.rs:594-605 | jobs in the pipeline are those with a listening handler plus orphans, and orphans are covered by timeouts and disconnected clients |
| GatewayTheorems.TimeoutsMissTheBuckets | src/main.rs:594-598 | the largest finite bucket never exceeds ok + error in any reachable state, if and only if the timeout is at least two seconds |
| GatewayTheorems.TimeoutsAreSummedInFull | src/grpc.rs:150-153 | at quiescence the latency sum holds the full configured duration for every timeout |
| Drain.PermitsNeverRunOut | src/worker_pool.rs:33-42 | permits never fall below min >= 1, so a dispatcher without an idle permit has a running worker |
| Drain.Progress | src/main.rs:412-439 | while any job is queued, held or running some dispatcher or worker step is enabled |
| Drain.OwedStep | src/main.rs:412-439 | every dispatcher and worker step lowers the measure by exactly one and only an admission raises it |
| Drain.DrainsExactly | src/main.rs:412-439 | without admissions a run takes at most the measured number of pipeline steps; one that stops only when none is enabled takes exactly that many and ends with all permits home and every waiting handler answered |
| Drain.CanDrain | src/main.rs:412-439 | such a run exists from every reachable state |
| RequestIds.IdCorrelation | src/main.rs:561-562 | a successful answer carries the id resolved at admission for HTTP, in body and header, and in llama-chat mode, and otherwise the id the core named; a client's own id is the one resolved |
| RequestIds.IdResolved | src/main.rs:519-525 | over any run an admitted handler's id is its client's own UUID header or non-empty gRPC id, and otherwise the one minted by its one validation |
| RequestIds.GrpcKeepsIdsExactlyWhen | src/grpc.rs:105-136 | every gRPC success of every reachable state carries the id resolved at admission, if and only if the core protocol is llama-chat |
| RequestIds.GrpcLosesTheId | src/grpc.rs:134-136 | a reachable gRPC success with another id than the client's |
| Drivers.HttpRefines | src/main.rs:506-606 | every atomic action of the HTTP handler is the handler step of the request machine: enabled at the same time, with the same counters, job, id, outcome and answer |
| Drivers.GrpcRefines | src/grpc.rs:89-160 | the same for the gRPC handler |
| Drivers.DriversRefineMachine | src/main.rs:404-606 | the system of both handlers, dispatcher and workers has exactly the runs of the request machine and stays in step with it |
| FrontEnds.TwinStep | src/grpc.rs:89-160 | one action of the HTTP handler and of the gRPC handler on the same content have the same effect on counters, queue, id and outcome and corresponding answers |
| ClientAnswers.ClientsAreToldTheTruth | src/main.rs:506-606 | over every run each answer of either front end is, status, text, body and header, the one for what happened to that client's own request: unknown model, full queue, the result of its one core call, its worker's death, or the clock |
| FrontEnds.FrontEndsInterchangeable | src/grpc.rs:89-160 | a run with HTTP calls is possible if and only if the run with the same calls over gRPC is, and both end with the same queue, permits, counters, jobs, channels and ids, and with statuses, error texts and responses that correspond |
| FrontEnds.StatusesAreDistinct | src/grpc.rs:133-159 | the correspondence of HTTP statuses and gRPC codes is one to one |
| Text.FindFirst | cpp_inference/inference_core.cpp:82 | the search returns the first occurrence, and nothing only when there is none |
| Text.DecimalConverts | cpp_inference/inference_core.cpp:109 | converting the decimal text of a number gives the number back |
| Text.SignedPrefixReads | cpp_inference/inference_core.cpp:109 | stoi and stoul read blanks, a sign and digits, and nothing without digits |
| Text.RangesAreChecked | cpp_inference/inference_core.cpp:109 | stoi throws exactly outside the 32-bit range and stoul outside the 64-bit one, negating modulo it |
| Text.TrimIs | cpp_inference/inference_core.cpp:54-62 | trimming takes away all blanks at both ends and nothing else |
| HttpReader.ReadAvailableData | cpp_inference/inference_core.cpp:316-334 | reads exactly the expected bytes or everything there is, whatever the pieces, and takes no more |
| HttpReader.ReadHead | cpp_inference/inference_core.cpp:345-364 | the first loop holds a prefix of the stream whose length is the specified stopping point |
| HttpReader.ReadHttpRequest | cpp_inference/inference_core.cpp:342-388 | the result is that of the specification for this fragmentation, and nothing read is lost unless the peer closed |
| HttpReader.ReaderSafety | cpp_inference/inference_core.cpp:345-387 | for any stream and fragmentation the result is a prefix, phase one holds at most 65536 + 4096 bytes, and phase two only completes the declared length |
| HttpReader.WholeRequestReturned | cpp_inference/inference_core.cpp:342-388 | head, terminator and exactly the declared body come back whole for every fragmentation |
| HttpReader.IndependenceExactlyWhen | cpp_inference/inference_core.cpp:342-388 | for every stream: all fragmentations give one result if and only if it ends where reading stops first, or no length can be read wherever reading stops, or the declared body is there and no single recv can pass its end |
| HttpReader.LengthIsRead | cpp_inference/inference_core.cpp:366-374 | the length found is the number in the first Content-Length line, whatever blanks surround it and whatever lines precede and follow it |
| HttpReader.MessageReturned | cpp_inference/inference_core.cpp:342-388 | a message whose Content-Length line tells the length of its body comes back whole for every fragmentation |
| HttpReader.ValueDecides | cpp_inference/inference_core.cpp:366-374 | a header with a Content-Length line declares what stoul makes of the trimmed value of the first one |
| HttpReader.HeadReturned | cpp_inference/inference_core.cpp:366-388 | a request without a length, such as a plain GET, comes back as it is for every fragmentation |
| HttpReader.UnreadableLengthThrows | cpp_inference/inference_core.cpp:370-374 | a length that cannot be read is the exception for every fragmentation |
| HttpReader.ClosedEarlyReturned | cpp_inference/inference_core.cpp:345-355 | a connection that closes before the head is complete leaves what came |
| HttpReader.CutBodyReturned | cpp_inference/inference_core.cpp:375-387 | when the peer does not finish the body, what phase one held is returned and the rest is dropped |
| Escaping.JsonEscape | cpp_inference/inference_core.cpp:64-78 | the loop computes the character-wise escape that the lemmas below invert |
| Escaping.CoreDecodes | cpp_inference/inference_core.cpp:64-78 | for all s and t, scanning the escape of s, a quote and t gives s and t |
| Escaping.CoreDecodesStrictly | cpp_inference/inference_core.cpp:64-78 | a strict scanner gets s back if and only if s has no control character besides newline, return and tab |
| Escaping.SerdeDecodes | src/main.rs:656-660 | what the gateway escapes decodes to the original under the strict rules |
| Escaping.SerdeIsShortest | src/main.rs:656-660 | among all texts a strict decoder reads as a character, the gateway writes the shortest, in lower-case hexadecimal |
| Escaping.EscapersAgree | cpp_inference/inference_core.cpp:64-78 | the core escapes a character as the gateway does, except that it copies control characters other than newline, return and tab |
| FieldFinder.OccursOnlyAtKeys | cpp_inference/inference_core.cpp:80-94 | in compact JSON with escaped strings a key pattern occurs only where that key is, whatever the values contain |
| FieldFinder.StringValueIs | cpp_inference/inference_core.cpp:80-94 | in any text the value is what stands between the first occurrence of the key with an opening quote and the next quote |
| FieldFinder.StringValueMissing | cpp_inference/inference_core.cpp:80-94 | without such an occurrence, or without a closing quote, the value is empty |
| FieldFinder.NumbersMean | cpp_inference/inference_core.cpp:96-110 | an integer field is what stoi makes of the digits and minus signs after its key, or the fallback |
| FieldFinder.FloatsMean | cpp_inference/inference_core.cpp:112-126 | a float field is what stof makes of the number characters after its key, or the fallback |
| FieldFinder.NestedOptionIs | cpp_inference/inference_core.cpp:128-152 | the nested search looks at what follows the first quote behind the first "options" |
| FieldFinder.StringFound | cpp_inference/inference_core.cpp:80-94 | a string field is found at its true key and read up to the first quote of its escaped text |
| FieldFinder.NumberFound | cpp_inference/inference_core.cpp:96-126 | a number is read exactly, a null is passed over |
| FieldFinder.NeverAString | cpp_inference/inference_core.cpp:128-152 | a key whose value is never a string is not found as a string in any suffix |
| NestedOptions.NestedMissesTheFirst | cpp_inference/inference_core.cpp:128-152 | in compact JSON the nested search finds a string option if and only if it is not the first field of the options |
| RoundTrip.ParseRequestBody | cpp_inference/inference_core.cpp:168-207 | the field-by-field parser computes the function the lemmas below are about |
| RoundTrip.OverrideNeverFires | cpp_inference/inference_core.cpp:198-205 | the nested-options override never fires on a body of the gateway |
| RoundTrip.ParsedBody | cpp_inference/inference_core.cpp:168-207 | for every request: strings up to the first quote of their escape, numbers as sent, the defaults for absent or non-positive ones, an exception exactly when max_tokens does not fit an int or stof throws |
| RoundTrip.VerbatimExactlyWhen | cpp_inference/inference_core.cpp:87-93 | the text up to the first quote of the escape is the string itself if and only if no character needs escaping |
| RoundTrip.RequestSurvivesExactlyWhen | src/main.rs:47-64 | the core parses a request if and only if its numbers convert; then model and input arrive unchanged if and only if they are non-empty and need no escaping, numbers when positive, and 32, 0.8, 0.95, llama-7b and hello world stand in for the others |
| RoundTrip.ParsedIsSane | cpp_inference/inference_core.cpp:168-207 | for every text: model and input are not empty, temperature and top_p are positive, and so is max_tokens unless a nested string overrides it as it is |
| RoundTrip.StringCountUsedExactlyWhen | cpp_inference/inference_core.cpp:198-205 | a string max_tokens among the options is used if and only if it is not their first field |
| RequestBody.BodyDecodes | src/main.rs:47-64 | for every request a strict JSON reader of the body gets exactly the request back |
| CoreResponse.ResponseDecodes | cpp_inference/inference_core.cpp:297-308 | the answer decodes to exactly its id, model, output and tokens; a strict decoder refuses it if and only if a control character was copied |
| CoreResponse.InputRecovered | cpp_inference/inference_core.cpp:222-237 | the input field of the output decodes to the original input, whatever the input, the model and the printed settings contain |
| CoreResponse.NormalizedIsUpperCase | cpp_inference/inference_core.cpp:222-237 | the text after the last caption of the output decodes to the input with ASCII letters in upper case and every other character as it was |
| CoreResponse.SettingsShown | cpp_inference/inference_core.cpp:228-236 | before it stand the model, the escaped input, the token count as a number and the printed temperature and top_p, in this order |
| CoreResponse.WholeWayRound | src/main.rs:651-677 | every request served over the legacy protocol gets a strictly decodable answer with the core's id and the right token count, from which the core's input can be read; model and input are those sent if and only if they are non-empty and plain |
| Service.HandleInfer | cpp_inference/inference_core.cpp:408-469 | the route's reply is that of the specification to what the reader returned for this fragmentation |
| Service.ClosedEarlyRefused | cpp_inference/inference_core.cpp:408-455 | a connection closed before its head is complete is answered 400 with "empty request" if nothing came and "missing body" otherwise |
| Service.UnreadableLengthCrashes | cpp_inference/inference_core.cpp:374 | a head whose length cannot be read ends the process |
| Service.BodyReachesParser | cpp_inference/inference_core.cpp:454-461 | behind any header block that announces it, the core works on exactly the posted body |
| Service.GatewayRequestServed | src/main.rs:651-677 | over every fragmentation, a request of the gateway crashes the core if and only if its numbers do not convert, and otherwise is answered with a response the gateway decodes and from which model and input come back if and only if they are non-empty and plain |

## Left out

- Sockets, accept, thread spawning, `send_response`, reqwest, axum and tonic: input and output.
- CUDA code and llama-server: foreign; a core call is an arbitrary reply.
- `src/models.rs` and the registry sync loop: a snapshot swap and a set lookup; the lookup's answer is arbitrary.
- `src/telemetry.rs`, logs and spans, `Config` and environment parsing, scripts, containers, Python tools.
- The text of the Prometheus page: formatting; `Render` returns the samples as numbers.
- u64 wrap-around of the counters and tokio's limit on the number of permits: both out of reach of a real run.
- The dispatcher and the handlers are steps of the state machine, not methods over shared objects: what
  matters about them is their interleaving.
- Floating-point values: the gateway's temperature and top_p are carried as the text it sends; `stof` and the printing
  of floats are not part of this model, so the properties hold for any functions in their place.
- Characters stand for bytes; UTF-8 is not modelled (no byte of a multi-byte sequence is a quote or a backslash).
- RoundTrip.ParsedBody: max_tokens is a 32-bit number and float options are numeric texts, as serde_json sends them.
- Escaping.CoreDecodes: the decoder refuses surrogate pairs, which neither side writes.
- The request line: `HandleInfer` is the `POST /infer` route only; the other routes would add only easy members.

# mlx-moe-stream: a Dafny model

mlx-moe-stream runs Mixture-of-Experts language models whose expert weights do not fit in memory: it
keeps a bounded cache of experts and reads the others from disk while a request is served. Its promise
is that caching, prefetching, coalescing, regrouping and streaming change what a request costs, never
what it returns. This project models the parts of the system that carry that promise and proves it of
the model. `dafny verify dfyconfig.toml` checks everything.

One module per component:

- `Markers`, `StopBuffer`, `ThinkingStream`, `ToolCallStream`: the streaming lexers of the server. They
  hold back text that may be the start of a marker. Each is a class with a mutable buffer, specified by a
  function on values and compared with a one-pass lexer of the whole text, whose reading of each marker is
  stated with the marker written out. Texts are sequences of characters.
- `ChatStream`: the three of them in a row, as a chat request runs them.
- `GemmaKeys`: the index loop that quotes bare object keys, compared with two printers of one JSON tree.
- `LruPolicy`, `ResidentCache`, `Runtime`: the simulator that predicts the cache, the byte-budget cache with
  pins, and the runtime that pins an expert while a layer computes. `LruPolicy` proves which accesses hit from
  the trace alone, `Runtime` that the cache and the simulator are bisimilar, and so what any run costs. Entry
  lists run from least to most recently used. `load` gives the arrays of an expert, the manifest its size.
- `MemoryPressure`, `Warmup`, `KvPolicy`: the memory plan, the staged reaction to pressure, the preloading
  decision and loop, and the precision of the KV cache. Readings of active memory, deadlines and reader
  failures are inputs.
- `AsyncLoader`: the read loader as a state machine with one step per critical section, queue operation or
  settled future, interleaved in every possible way by any number of callers and workers; and the same steps
  as methods of a class.
- `ExpertStore`, `Repack`, `ManifestBuild`: reading a bundle with adjacent spans merged, rewriting a checkpoint
  so that every bundle is one run, and building and validating the manifest from safetensors headers. Files
  are byte sequences.
- `ExpertMajor`: grouped prefill against the token-major double loop. An expert is a function of its input.
- `Predictor`: training, prediction and scheduling of speculative reads, in exact real arithmetic.
- `GenerationSlot`: the server's one generation slot and its request counters over every life of a generation.

Two results are exact conditions under which the code meets its intent. Chunking can change the output of
the stop buffer exactly when the stop list is not head-first (`StopBuffer.ChunkInvariantIffHeadFirst`; the
stops `abcd` and `bc` show it). A manifest built from well-formed headers passes its own validation exactly
when no tensor of the split layout is a scalar (`ManifestBuild.BuiltManifestIsValidIff`,
`ManifestBuild.ScalarTensorsAreRefused`). Two smaller ones: the repacking tool copies nothing with a
look-ahead below one (`Repack.CompleteIffLookahead`), and quantizing the KV cache saves memory exactly for
groups of two or more (`KvPolicy.QuantizingSavesIff`).

One result rests on an assumption about the engine: every ended or closed generation has released the server's
slot exactly once (`GenerationSlot.EveryEndedGenerationReleasedOnce`), provided that reading the engine's
statistics raises nothing outside Python's `Exception`. The code catches `Exception` there;
`GenerationSlot.InterruptedMetricsKeepTheSlot` shows that the assumption cannot be dropped.

## Model

| member | source | states |
|---|---|---|
| Markers.Retained | src/mlx_moe_stream/server/protocol.py:962-976 | what is held back is the longest suffix of the text that is a proper prefix of some marker |
| Markers.RetainedDecides | src/mlx_moe_stream/server/protocol.py:962-976 | with no marker complete so far, every marker that later text completes or begins starts inside the held suffix and is visible from it |
| Markers.RetainedDecidesMatch | src/mlx_moe_stream/server/protocol.py:398-416 | searching the held suffix plus new text finds what searching all text so far would find, and holds back the same |
| Markers.EarliestStays | src/mlx_moe_stream/server/protocol.py:443-472 | in a marker table where heads never occur inside markers and none prefixes another, the earliest match is final whatever follows |
| StopBuffer.StopSequenceBuffer.FeedText | src/mlx_moe_stream/server/protocol.py:398-416 | one feed changes the buffer and emits as the specification does |
| StopBuffer.StopSequenceBuffer.FlushText | src/mlx_moe_stream/server/protocol.py:418-423 | the flush hands out the held text unless a stop was seen |
| StopBuffer.FeedDecidesOnWholeText | src/mlx_moe_stream/server/protocol.py:398-416 | each feed decides as if it searched all text received so far |
| StopBuffer.OutputCutsWhenSeen | src/mlx_moe_stream/server/protocol.py:390-423 | the output of a chunked run is the text cut at the stop found by the first chunk that completes one |
| StopBuffer.StreamedOutputIsSafe | src/mlx_moe_stream/server/protocol.py:390-423 | for every chunking the output is a prefix of the text without any stop; it is all of it exactly when the text has none, and otherwise ends where a stop begins |
| StopBuffer.EarliestIsFinal | src/mlx_moe_stream/server/protocol.py:974-976 | for head-first stops the first match found is the earliest of every longer text |
| StopBuffer.ChunkInvariantIffHeadFirst | src/mlx_moe_stream/server/protocol.py:390-423 | the output is the same for all chunkings exactly when every stop that contains a complete stop before its last character also begins with one |
| StopBuffer.HeadFirstOutputIsTruncate | src/mlx_moe_stream/server/protocol.py:390-423 | then the output is the text cut at the earliest stop |
| StopBuffer.ChunkingCanMatter | src/mlx_moe_stream/server/protocol.py:398-416 | the stops `abcd` and `bc` give two outputs for one text |
| ThinkingStream.MarkersAreHeaded | src/mlx_moe_stream/server/protocol.py:426-441 | the thinking markers are a table for which the earliest match is final |
| ThinkingStream.ThinkingStreamParser.FeedText | src/mlx_moe_stream/server/protocol.py:443-472 | the feed loop over complete markers changes state and emits as the specification does |
| ThinkingStream.ThinkingStreamParser.FlushText | src/mlx_moe_stream/server/protocol.py:474-480 | the flush hands out the held text, including a partial marker, in the current field |
| ThinkingStream.FeedFollowsLexer | src/mlx_moe_stream/server/protocol.py:443-472 | whatever text follows, a feed emits what the lexer makes of the consumed part, and what it holds contains no complete marker |
| ThinkingStream.StreamIsLexer | src/mlx_moe_stream/server/protocol.py:426-483 | for every chunking the merged fragments are those of a one-pass lexer of the whole text |
| ThinkingStream.StripIs | src/mlx_moe_stream/server/protocol.py:387-387 | stripping removes the white space at both ends, all of it, and nothing else |
| ThinkingStream.SplitReasoning | src/mlx_moe_stream/server/protocol.py:379-387 | the batch split is the two fields of the same lexer, and of the stream fed once, stripped |
| ThinkingStream.StreamAgreesWithSplit | src/mlx_moe_stream/server/protocol.py:379-387 | streaming joins to the same reasoning and content as the batch split before stripping |
| ThinkingStream.PlainTextStays | src/mlx_moe_stream/server/protocol.py:443-480 | in every chunking a text without a marker is text of the field the stream starts in |
| ThinkingStream.FirstMarkerDecides | src/mlx_moe_stream/server/protocol.py:429-472 | what each of the seven markers does, written out: whatever follows and however it is chunked, the text before the first marker stays in its field and the text behind it is a stream that starts in the reasoning, in the content, or where the first one started |
| ThinkingStream.ThoughtIsReasoning | src/mlx_moe_stream/server/protocol.py:426-480 | in every chunking of `x<think>y</think>z` the reasoning is `y` and the content `xz` |
| ToolCallStream.ToolCallStreamParser.FeedText | src/mlx_moe_stream/server/protocol.py:498-528 | one feed parses the blocks it completes, emits content around them, and keeps the rest; when a block does not parse it raises with the block still in the buffer |
| ToolCallStream.ToolCallStreamParser.FlushText | src/mlx_moe_stream/server/protocol.py:530-541 | the flush parses or hands out the residue and empties the buffer |
| ToolCallStream.ScanRebuilds | src/mlx_moe_stream/server/protocol.py:498-528 | events and held text rebuild the scanned text |
| ToolCallStream.ScanFollowsSegment | src/mlx_moe_stream/server/protocol.py:498-528 | whatever text follows, the events of a feed are the first items of the whole text |
| ToolCallStream.HeldIsResidue | src/mlx_moe_stream/server/protocol.py:507-528 | what a feed holds back contains neither content nor a complete block |
| ToolCallStream.StreamIsSegmentation | src/mlx_moe_stream/server/protocol.py:486-541 | for every chunking, content, calls and residue are those of the whole text, and the stream raises exactly when that does |
| ToolCallStream.SegmentsRebuild | src/mlx_moe_stream/server/protocol.py:486-541 | content, blocks and residue rebuild the text in order |
| ToolCallStream.CallsAreCompleteBlocks | src/mlx_moe_stream/server/protocol.py:489-528 | only blocks from a start marker to its first matching end marker reach the call parser |
| ToolCallStream.SpreadIs | src/mlx_moe_stream/server/protocol.py:498-505 | content is delivered character by character, in order |
| ToolCallStream.FirstBlockIsDelivered | src/mlx_moe_stream/server/protocol.py:489-528 | for both spellings of a block, written out: the text before the first block is content, its calls come whole or the stream raises, and the text behind it is a stream of its own |
| ToolCallStream.OpenBlockIsWithheld | src/mlx_moe_stream/server/protocol.py:507-541 | a block that never ends is withheld, and the flush delivers what the call parser leaves visible of it and then its calls |
| ToolCallStream.PlainTextIsContent | src/mlx_moe_stream/server/protocol.py:505-541 | a text without a start marker is content but for the longest end that might become one, which the flush parses |
| ChatStream.TextFragments | src/mlx_moe_stream/server/app.py:575-640 | the loop over the engine's texts hands out what the stop buffer lets through, until it has stopped |
| ChatStream.FragmentsAreOutput | src/mlx_moe_stream/server/app.py:613-629 | those fragments add up to the output of the stop buffer |
| ChatStream.Forward | src/mlx_moe_stream/server/app.py:725-738 | one step's fragments: reasoning is handed out, content goes to the tool-call parser |
| ChatStream.ChatEvents | src/mlx_moe_stream/server/app.py:686-706 | the event loop over both parsers and their flushes computes the chat answer, and raises when the call parser does |
| ChatStream.ChatIsChunkInvariant | src/mlx_moe_stream/server/app.py:686-738 | however the engine and the first parser cut the text, the answer is that of the whole text: the content and calls of its content part |
| ChatStream.AnswerIsOfTheWholeText | src/mlx_moe_stream/server/app.py:575-738 | through all three parsers, for head-first stops: reasoning, content and calls are those of the engine's whole text cut at its earliest stop |
| ChatStream.CallsAreOutsideThoughts | src/mlx_moe_stream/server/app.py:725-738 | call blocks written inside a thought stay reasoning; only the text behind it is searched for calls |
| GemmaKeys.QuoteGemmaObjectKeys | src/mlx_moe_stream/server/protocol.py:885-931 | the index loop with its context stack computes the transducer |
| GemmaKeys.QuoteIsPrinterCorrect | src/mlx_moe_stream/server/protocol.py:885-931 | on the print of any JSON tree with bare keys, nested objects, arrays and escaped strings, it gives the print with quoted keys |
| GemmaKeys.QuoteKeepsStrictJson | src/mlx_moe_stream/server/protocol.py:885-931 | the body of a strict JSON object (sections 4, 5 and 7 of RFC 8259) comes out unchanged |
| GemmaKeys.QuotedMembersAreStrict | src/mlx_moe_stream/server/protocol.py:885-931 | the tree with quoted keys is a strict JSON object body |
| GemmaKeys.NoKeyIsLeft | src/mlx_moe_stream/server/protocol.py:909-917 | on any text, the output never shows a bare key in key position |
| GemmaKeys.QuoteIsIdempotent | src/mlx_moe_stream/server/protocol.py:885-931 | on every text, quoting twice is quoting once |
| GemmaKeys.IdentifiersAreQuoted | src/mlx_moe_stream/server/protocol.py:988-988 | a key comes out quoted exactly when it is a letter or underscore followed by letters, digits, underscores and hyphens |
| GemmaKeys.SpaceBeforeKeyIsDropped | src/mlx_moe_stream/server/protocol.py:988-988 | of all characters exactly the white space of Python's patterns may stand before a bare key, and is dropped with it |
| LruPolicy.LruCacheSimulator.AccessBundle | src/mlx_moe_stream/cache/policy.py:66-91 | one access: recency, counters, evictions and both errors |
| LruPolicy.CacheIsTopOfStack | src/mlx_moe_stream/cache/policy.py:66-91 | after any trace the cache of any capacity is the top of one recency stack, as much of it as fits |
| LruPolicy.Inclusion | src/mlx_moe_stream/cache/policy.py:66-91 | a smaller cache holds a part of what a larger one holds, in the same order |
| LruPolicy.HitsAreMonotone | src/mlx_moe_stream/cache/policy.py:66-104 | hits and hit bytes never fall with capacity, misses never rise |
| LruPolicy.AdmissionsAreConserved | src/mlx_moe_stream/cache/policy.py:66-91 | every missed bundle is resident or was evicted |
| LruPolicy.NothingEvictedWhenAllFits | src/mlx_moe_stream/cache/policy.py:66-91 | a cache that can hold all bundles evicts none and misses each once |
| LruPolicy.EntriesStayIff | src/mlx_moe_stream/cache/policy.py:66-91 | what the error paths and oversized bundles change, and what a hit or miss counts |
| LruPolicy.ResidentIffReuseFits | src/mlx_moe_stream/cache/policy.py:66-91 | the hit law: a bundle is resident exactly when everything accessed since its latest access, each bundle counted once, fits in the cache |
| LruPolicy.HitsAreReuses | src/mlx_moe_stream/cache/policy.py:66-104 | all five counters of a run are counts over the trace, by that law |
| LruPolicy.SimulateLruCurve | src/mlx_moe_stream/cache/policy.py:106-127 | the curve has one row per fraction, each the run of a fresh simulator, and is refused exactly for a fraction outside (0, 1] |
| LruPolicy.CurveIsMonotone | src/mlx_moe_stream/cache/policy.py:106-127 | a larger fraction has at least the hits of a smaller one |
| LruPolicy.FullFractionMissesOnce | src/mlx_moe_stream/cache/policy.py:106-127 | at fraction one nothing is evicted and misses are the distinct keys |
| LruPolicy.CapacityFor | src/mlx_moe_stream/cache/policy.py:119-119 | the least whole number of experts at or above the fraction of the working set, and at least one |
| LruPolicy.CurveRowIsExact | src/mlx_moe_stream/cache/policy.py:106-127 | each number of a row: the rounded capacity, hits by the hit law, and misses that are resident or evicted |
| ResidentCache.ResidentCache.Lookup | src/mlx_moe_stream/cache/resident.py:92-112 | a lookup: recency, hit and miss counters, and the size check |
| ResidentCache.ResidentCache.ReserveBytes | src/mlx_moe_stream/cache/resident.py:119-129 | a reservation evicts for the size or raises for the size or the pins |
| ResidentCache.ResidentCache.AdmitExpert | src/mlx_moe_stream/cache/resident.py:131-152 | an admission replaces or evicts and appends, within the budget |
| ResidentCache.ResidentCache.PinExpert | src/mlx_moe_stream/cache/resident.py:154-164 | pinning moves the entry to the recent end and counts |
| ResidentCache.ResidentCache.UnpinExpert | src/mlx_moe_stream/cache/resident.py:166-172 | unpinning undoes one pin or raises |
| ResidentCache.ResidentCache.EvictToTarget | src/mlx_moe_stream/cache/resident.py:194-201 | eviction down to a target, or an error when pins prevent it |
| ResidentCache.ResidentCache.ResizeTo | src/mlx_moe_stream/cache/resident.py:203-215 | a new capacity with the evictions it needs, or an error that leaves the capacity |
| ResidentCache.ResidentCache.EvictWhile | src/mlx_moe_stream/cache/resident.py:251-265 | the loop evicts the oldest unpinned entries until enough room is left or only pins remain |
| ResidentCache.EvictSound | src/mlx_moe_stream/cache/resident.py:251-265 | eviction keeps every pinned entry, and stops above the goal only when nothing else is left |
| ResidentCache.LookupsStaySound | src/mlx_moe_stream/cache/resident.py:243-249 | lookups and pin changes keep the byte total within capacity and the keys distinct |
| ResidentCache.AdmitStaysSound | src/mlx_moe_stream/cache/resident.py:119-152 | so do reservations and admissions |
| ResidentCache.ShrinkStaysSound | src/mlx_moe_stream/cache/resident.py:194-215 | so do evictions and resizes |
| Runtime.CachedExpertRuntime.ResolveResident | src/mlx_moe_stream/runtime.py:611-634 | resolving returns the resident expert or reads, reserves and admits it, with every error path |
| Runtime.CachedExpertRuntime.ExecuteExpert | src/mlx_moe_stream/runtime.py:359-395 | executing pins for the batch, and unpins again when the computation raises |
| Runtime.CachedExpertRuntime.ReleaseBatchPins | src/mlx_moe_stream/runtime.py:636-638 | releasing unpins the whole batch and never fails |
| Runtime.ResolveKeepsInv | src/mlx_moe_stream/runtime.py:611-634 | every entry stays the manifest's bundle, pin counts stay the multiplicities of the batch pins, and the expert handed out is exactly the one asked for |
| Runtime.ExecuteKeepsInv | src/mlx_moe_stream/runtime.py:359-395 | a completed call adds one pin, any other none, and computes with exactly its expert's arrays |
| Runtime.ReleaseSucceeds | src/mlx_moe_stream/runtime.py:397-415 | in every reachable state releasing succeeds, leaves no pin and changes nothing else |
| Runtime.EvictIsShed | src/mlx_moe_stream/cache/resident.py:251-265 | with pins at the recent end, eviction around pins takes the victims of plain LRU |
| Runtime.EvictReachesIff | src/mlx_moe_stream/cache/resident.py:174-192 | eviction reaches its goal exactly when the pinned bytes alone fit |
| Runtime.ExecuteRaisesIff | src/mlx_moe_stream/runtime.py:359-395 | exactly when a call raises, and which exception |
| Runtime.ExecuteMirrors | src/mlx_moe_stream/runtime.py:359-372 | a call that does not raise is one access of the pin-free simulator |
| Runtime.PinsNeverChangeVictims | src/mlx_moe_stream/runtime.py:359-415 | over any run of layers, with failing computations and aborts, cache and simulator hold the same bundles in the same order with the same counters |
| Runtime.RunCostsWhatItAccesses | src/mlx_moe_stream/runtime.py:359-415 | over any run of layers from an empty cache the counters are counts over the accesses: hits by the hit law, loaded bytes those of the misses, and reloads all of them beyond each expert's first load |
| Runtime.CacheRaisesIff | src/mlx_moe_stream/cache/resident.py:92-172 | exactly when looking up, admitting, pinning and unpinning a resident expert raise |
| Runtime.AbsentRaisesIff | src/mlx_moe_stream/cache/resident.py:92-172 | and one that is absent, where reservations fail for the size alone or with the pinned bytes |
| Runtime.ShrinkRaisesIff | src/mlx_moe_stream/cache/resident.py:194-215 | exactly when eviction to a target and resizing raise, and that only a successful resize sets the capacity |
| Runtime.LayerIsExact | src/mlx_moe_stream/runtime.py:359-415 | however a layer ends, no pin is left and each completed call used its own expert's arrays |
| MemoryPressure.PlanFitsWorkingSet | src/mlx_moe_stream/memory.py:196-289 | every cached plan: budget, shell, reserves and margin fit the working set and one bundle fits the budget; an automatic budget leaves nothing over, an explicit one is granted as asked; and exactly when planning fails and why |
| MemoryPressure.MemoryBudgetManager.EnforceOn | src/mlx_moe_stream/memory.py:291-330 | one observation: the level, the action and its effect on the cache; without pins the eviction stage drops least recent experts until the excess and a quarter of the margin are gone, and no longer |
| MemoryPressure.EnforceReachesTarget | src/mlx_moe_stream/memory.py:291-336 | without pins eviction meets its target, resizing only shrinks and keeps one byte, and only the last stage raises |
| MemoryPressure.PressureReclaimsTheExcess | src/mlx_moe_stream/memory.py:291-336 | written out for every stage: eviction gives back what active memory is over the safe size and a quarter of the margin, dropping least recent experts and no more than needed; shrinking lowers the capacity to the same size or to the smallest expert |
| MemoryPressure.SynchronizeBatch | src/mlx_moe_stream/runtime.py:397-410 | synchronizing releases all pins, also when the evaluation raises, and only then handles pressure |
| MemoryPressure.PressureStaysSafe | src/mlx_moe_stream/runtime.py:397-415 | over any run: pins are accounted for, capacity has only shrunk, the level is the number of over-limit observations in a row up to four, and pressure raises exactly from the fourth on |
| MemoryPressure.PrefetchStopsAtFirstPressure | src/mlx_moe_stream/runtime.py:397-410 | over any run, prefetching is switched off by the first over-limit observation, for good, and by nothing else |
| Warmup.WarmCache | src/mlx_moe_stream/runtime.py:518-599 | the preloading loop with its stop reasons and totals |
| Warmup.WarmNeverEvicts | src/mlx_moe_stream/runtime.py:518-599 | preloading only appends, leaves the traffic counters, and reports what the cache gained |
| Warmup.CompleteWarmupHoldsAll | src/mlx_moe_stream/runtime.py:518-599 | a complete preload without reader errors leaves every key resident |
| Warmup.EnoughCapacityNeverStops | src/mlx_moe_stream/runtime.py:540-580 | a capacity for the whole manifest never stops it |
| Warmup.WarmStopsForCause | src/mlx_moe_stream/runtime.py:518-599 | preloading stops at one key for the reason it reports, and every key before it is resident or could not be read |
| Warmup.FullModeIffAllFits | src/mlx_moe_stream/startup.py:110-131 | full residency is chosen, and keys are preloaded, exactly when a cache of that budget can hold every expert at once |
| Warmup.FullCallsHit | src/mlx_moe_stream/runtime.py:611-634 | with everything resident each call is a hit, whatever the reader would do |
| Warmup.FullResidencyIsExact | src/mlx_moe_stream/startup.py:110-131 | a budget for the whole manifest decides for full residency, and when its preload completes, no later run misses, reads or evicts |
| AsyncLoader.AsyncExpertLoader.PrefetchBundle | src/mlx_moe_stream/prefetch/async_loader.py:88-111 | a speculative request coalesces, is submitted within the limit, or is refused |
| AsyncLoader.AsyncExpertLoader.EnterDemand | src/mlx_moe_stream/prefetch/async_loader.py:113-135 | a demand coalesces, is submitted, falls back to a direct read, or is refused after close |
| AsyncLoader.AsyncExpertLoader.LeaveDemand | src/mlx_moe_stream/prefetch/async_loader.py:142-153 | a demand returns its future's result and removes its own request only |
| AsyncLoader.AsyncExpertLoader.ReadDirect | src/mlx_moe_stream/prefetch/async_loader.py:136-141 | a demand without a slot raises exactly what its own read raised, and otherwise returns its key's bytes |
| AsyncLoader.AsyncExpertLoader.TakeItem | src/mlx_moe_stream/prefetch/async_loader.py:199-204 | a worker takes the least item of the queue, work or stop token |
| AsyncLoader.AsyncExpertLoader.SettleFuture | src/mlx_moe_stream/prefetch/async_loader.py:205-213 | a worker settles the future with exactly the reader's error if there was one, and otherwise with the key's bytes |
| AsyncLoader.AsyncExpertLoader.CloseLoader | src/mlx_moe_stream/prefetch/async_loader.py:178-189 | close puts one stop token per worker behind everything, once |
| AsyncLoader.StepKeepsInv | src/mlx_moe_stream/prefetch/async_loader.py:88-213 | every step of any caller or worker keeps the invariant on registry, queue, workers, futures and shutdown |
| AsyncLoader.EveryInterleavingIsSafe | src/mlx_moe_stream/prefetch/async_loader.py:88-213 | so the invariant holds in every interleaving |
| AsyncLoader.EveryDemandIsExact | src/mlx_moe_stream/prefetch/async_loader.py:113-153 | in every interleaving each return of a demand has its cause among the steps of the run: the caller asked for the key, and gets the error exactly when the one read that settled its request, or its own direct read, raised it, and the key's bytes exactly when it did not; none is refused before close |
| AsyncLoader.FutureIsCarried | src/mlx_moe_stream/prefetch/async_loader.py:199-213 | a request is settled by exactly one read, and its future holds what that read brought |
| AsyncLoader.CallerIsDemanded | src/mlx_moe_stream/prefetch/async_loader.py:113-135 | a caller inside `demand` is there for the key of its latest call |
| AsyncLoader.PrefetchIsAdmitted | src/mlx_moe_stream/prefetch/async_loader.py:88-111 | exactly when a speculative request is accepted, and when it makes a new request |
| AsyncLoader.DemandIsServed | src/mlx_moe_stream/prefetch/async_loader.py:113-135 | exactly when a demand waits for a registered request, makes one, reads directly, or is refused |
| AsyncLoader.CallersGoOn | src/mlx_moe_stream/prefetch/async_loader.py:113-153 | a caller is never stuck: it can read, return, or some worker can step towards its request |
| AsyncLoader.InflightIsBounded | src/mlx_moe_stream/prefetch/async_loader.py:104-131 | queued plus running reads are exactly the unsettled requests, at most the registered ones, and those at most the limit |
| AsyncLoader.ReadsAreUnique | src/mlx_moe_stream/prefetch/async_loader.py:199-213 | each request is read at most once, exactly once when settled, and stays registered until then |
| AsyncLoader.SettledStays | src/mlx_moe_stream/prefetch/async_loader.py:199-213 | a settled future is never settled again |
| AsyncLoader.ReturnRemovesOnlyItsOwn | src/mlx_moe_stream/prefetch/async_loader.py:142-153 | a late demander never removes a newer request of its key, and gets the result of its own future |
| AsyncLoader.DemandsComeFirst | src/mlx_moe_stream/prefetch/async_loader.py:191-197 | a speculative read starts only when no demanded one waits, and of either kind always the oldest |
| AsyncLoader.StopIsLast | src/mlx_moe_stream/prefetch/async_loader.py:178-189 | a worker takes a stop token only when no work is queued |
| AsyncLoader.PendingMakesProgress | src/mlx_moe_stream/prefetch/async_loader.py:113-153 | in every reachable state with an unsettled request some worker can step, so a waiting demander is never left alone |
| AsyncLoader.CloseDrains | src/mlx_moe_stream/prefetch/async_loader.py:178-189 | when all workers have left, the queue is empty, every accepted future is settled, and every waiting demander can return |
| AsyncLoader.ClosedMakesProgress | src/mlx_moe_stream/prefetch/async_loader.py:178-213 | after close some worker can always step until all have left |
| AsyncLoader.ClosedWorkShrinks | src/mlx_moe_stream/prefetch/async_loader.py:178-213 | after close no step adds work and each step of a worker removes some |
| AsyncLoader.ClosedRunIsBounded | src/mlx_moe_stream/prefetch/async_loader.py:178-213 | so a run after close holds at most as many worker steps as there was work |
| AsyncLoader.ShutdownDrains | src/mlx_moe_stream/prefetch/async_loader.py:178-213 | whole runs: after close workers make boundedly many steps, and once none can step all have left, the queue is empty, every accepted request is settled and every caller can return |
| ExpertStore.SafetensorsExpertStore.PreadRange | src/mlx_moe_stream/storage/safetensors_store.py:192-216 | one device read: the bytes and both counters, or an error and neither |
| ExpertStore.SafetensorsExpertStore.ReadAdjacentRun | src/mlx_moe_stream/storage/safetensors_store.py:258-273 | one read for a run and a view per span |
| ExpertStore.SafetensorsExpertStore.ReadFile | src/mlx_moe_stream/storage/safetensors_store.py:243-252 | the merging loop over one file's ordered spans reads their maximal runs |
| ExpertStore.SafetensorsExpertStore.Load | src/mlx_moe_stream/storage/safetensors_store.py:223-256 | reading a bundle: checks, grouping by file, and every error path |
| ExpertStore.RunsAreMaximal | src/mlx_moe_stream/storage/safetensors_store.py:243-252 | the runs rebuild the ordered spans, are chains of adjacent spans, and cannot be joined |
| ExpertStore.SortIsStable | src/mlx_moe_stream/storage/safetensors_store.py:244-244 | ordering permutes by offset and keeps the given order at equal offsets |
| ExpertStore.PlanCoversBundle | src/mlx_moe_stream/storage/safetensors_store.py:231-252 | the planned reads cover each span exactly once, each in one run of one file |
| ExpertStore.CoalescedReadsAreExact | src/mlx_moe_stream/storage/safetensors_store.py:223-256 | exactly when a read succeeds; then every role maps to its own file slice, the bytes read are the bundle's total, and there is one device read per maximal run |
| ExpertStore.ReadErrorsAre | src/mlx_moe_stream/storage/safetensors_store.py:223-256 | which error a bundle fails with: the first repeated role or invalid range, before any read; then a range no file has; and a wrong total only when everything was read |
| ExpertStore.ContiguousIsOneRead | src/mlx_moe_stream/storage/safetensors_store.py:223-252 | a bundle lying back to back costs one device read |
| Repack.SubmitNext | tools/repack_bundle_major.py:125-130 | the next remaining key moves to the pending reads |
| Repack.SortKeys | tools/repack_bundle_major.py:38-40 | the keys of the manifest, all of them, by layer and expert |
| Repack.CopyBundles | tools/repack_bundle_major.py:122-144 | the look-ahead pipeline copies the bundles in key order, whatever the look-ahead from one up |
| Repack.RepackBundles | tools/repack_bundle_major.py:101-144 | sorting and copying together |
| Repack.WriteBundle | tools/repack_bundle_major.py:140-144 | the inner loop rewrites each span in place and appends its bytes |
| Repack.CopyAllIs | tools/repack_bundle_major.py:122-144 | the blob grows by the bundles in order, and no other entry of the manifest changes |
| Repack.CopyAllLaysOut | tools/repack_bundle_major.py:140-144 | each bundle lies right behind those of the keys before it |
| Repack.RepackKeepsMeaning | tools/repack_bundle_major.py:104-144 | end to end: the new manifest reads the same role-to-bytes map as the old one, with exactly one device read per expert, and the old one still reads the same |
| Repack.RepackedIsValid | tools/repack_bundle_major.py:104-144 | the new manifest again has distinct roles, in-file ranges and correct totals |
| Repack.CompleteIffLookahead | tools/repack_bundle_major.py:133-136 | the blob is complete exactly when the look-ahead is at least one or there is nothing to copy |
| ManifestBuild.ReadHeader | src/mlx_moe_stream/storage/safetensors_store.py:89-143 | a header is accepted exactly when its size and entries are in order; then exactly its tensors are recorded, with the dtype, shape, offset and length their entries give, and all ranges lie in the file |
| ManifestBuild.ProductOf | src/mlx_moe_stream/storage/safetensors_store.py:643-647 | the product of a shape |
| ManifestBuild.DtypeBytesFollowTheName | src/mlx_moe_stream/storage/safetensors_store.py:22-40 | which dtypes are supported, and that their sizes are the widths in their names |
| ManifestBuild.RoleIsInjective | src/mlx_moe_stream/storage/safetensors_store.py:639-640 | different fields have different roles |
| ManifestBuild.BuildLeadingAxisBundles | src/mlx_moe_stream/storage/safetensors_store.py:536-574 | the builder of the stacked layout, with its checks: each expert's bundle holds its row of every tensor under the tensor's own role |
| ManifestBuild.BuildSplitBundles | src/mlx_moe_stream/storage/safetensors_store.py:577-618 | the builder of the one-tensor-per-expert layout, with its checks: each bundle holds the expert's tensors under their own roles |
| ManifestBuild.BuildBundles | src/mlx_moe_stream/storage/safetensors_store.py:332-333 | the loop over the layers |
| ManifestBuild.EveryRoleNamesItsTensor | src/mlx_moe_stream/storage/safetensors_store.py:536-618 | with the twelve roles written out, in both layouts: a bundle of a built manifest holds, under each role and in their order, exactly that field's tensor or row of it, with its file, range, shape and dtype |
| ManifestBuild.BuiltIff | src/mlx_moe_stream/storage/safetensors_store.py:460-634 | a manifest is built exactly when every layer has one layout, all three weights of every expert, one row per expert in stacked tensors, and no expert out of range |
| ManifestBuild.ExpertsTileTensor | src/mlx_moe_stream/storage/safetensors_store.py:544-566 | the experts' spans of a stacked tensor are its rows along axis 0 and cover each of its bytes exactly once |
| ManifestBuild.ExpertsRebuildTensor | src/mlx_moe_stream/storage/safetensors_store.py:552-566 | read one after the other they are the tensor |
| ManifestBuild.LeadingIsSplit | src/mlx_moe_stream/storage/safetensors_store.py:536-618 | the stacked layout is the split layout of its slices |
| ManifestBuild.Validate | src/mlx_moe_stream/manifest.py:130-168 | validation accepts exactly the manifests that meet all its conditions |
| ManifestBuild.BuiltManifestIsValidIff | src/mlx_moe_stream/manifest.py:130-168 | what the builder makes from accepted headers passes validation exactly when no split tensor is a scalar |
| ManifestBuild.ScalarTensorsAreRefused | src/mlx_moe_stream/manifest.py:154-156 | a checkpoint of three scalar weights that the reader and the builder accept and that validation refuses for them alone |
| ManifestBuild.ValidManifestIsReadable | src/mlx_moe_stream/manifest.py:130-168 | a valid manifest has what exact reading and repacking rely on |
| ExpertMajor.RoutesAre | src/mlx_moe_stream/models/qwen3_moe.py:364-370 | a group holds exactly the cells routed to its expert, each once and row by row |
| ExpertMajor.GroupRoutes | src/mlx_moe_stream/models/qwen3_moe.py:363-370 | the grouping loop builds the groups and lists the routed experts once each, and refuses rows of different widths |
| ExpertMajor.Scatter | src/mlx_moe_stream/models/qwen3_moe.py:390-391 | a group's results fill its cells, none of them twice, and no others |
| ExpertMajor.OrderIsExpertOrder | src/mlx_moe_stream/runtime.py:698-725 | each of the runtime's orders lists every routed expert exactly once |
| ExpertMajor.OrderIsInOrder | src/mlx_moe_stream/runtime.py:708-725 | and in the order of its keys: id, residents first, or place on disk |
| ExpertMajor.OrdersAre | src/mlx_moe_stream/runtime.py:708-725 | the three orders written out: by id; residents first and each part by id; by file name in dictionary order, offset and id |
| ExpertMajor.StreamingSwitchGLU.RunGroups | src/mlx_moe_stream/models/qwen3_moe.py:381-396 | in any order of the routed experts the result is the token-major matrix, with the stated sequence of offers and runs |
| ExpertMajor.StreamingSwitchGLU.ExpertMajorPrefill | src/mlx_moe_stream/models/qwen3_moe.py:359-396 | grouping, ordering and running together; ragged rows are refused before anything runs |
| ExpertMajor.StreamingSwitchGLU.TokenMajor | src/mlx_moe_stream/models/qwen3_moe.py:344-357 | the double loop, its sequence of offers and runs, and the stacking error for ragged or empty rows |
| ExpertMajor.StreamingSwitchGLU.SchedulePrefetch | src/mlx_moe_stream/models/qwen3_moe.py:411-415 | each expert is offered once, in order, and none at depth zero |
| ExpertMajor.StreamingSwitchGLU.Apply | src/mlx_moe_stream/models/qwen3_moe.py:318-342 | for every route matrix the layer's output, or its error, does not depend on the strategy, the order or the depth; the trace is that of the chosen strategy, expert-major only for more than one token |
| ExpertMajor.ScheduleIs | src/mlx_moe_stream/models/qwen3_moe.py:383-391 | each expert of the order runs exactly once, in order |
| ExpertMajor.TokenScheduleIs | src/mlx_moe_stream/models/qwen3_moe.py:344-357 | token by token every route is offered and runs alone, in its order |
| ExpertMajor.PrefetchWindow | src/mlx_moe_stream/models/qwen3_moe.py:383-387 | when an expert runs, exactly it and the next ones within the depth have been offered, each once |
| Predictor.GroupEvents | src/mlx_moe_stream/prefetch/predictive.py:263-268 | events are filed by token and layer, and refused exactly when two of one request, phase, token and layer differ |
| Predictor.CountTransitions | src/mlx_moe_stream/prefetch/predictive.py:272-280 | every source of a layer is counted before every target of the next, with multiplicity |
| Predictor.TargetsArePairs | src/mlx_moe_stream/prefetch/predictive.py:272-280 | a target is counted as often as pairs of a place of the source and a place of the target stand in neighbouring layers of one token |
| Predictor.DistributionSumsToOne | src/mlx_moe_stream/prefetch/predictive.py:281-291 | each source's confidences are in (0, 1], sum to one, belong to distinct targets and do not rise |
| Predictor.Train | src/mlx_moe_stream/prefetch/predictive.py:247-299 | exactly when training succeeds, and that it yields the distribution of every observed transition |
| Predictor.TrainedIsValidIff | src/mlx_moe_stream/prefetch/predictive.py:292-299 | a trained predictor validates exactly when all layers and experts of observed transitions are in range |
| Predictor.Validate | src/mlx_moe_stream/prefetch/predictive.py:70-93 | validation accepts exactly the predictors that meet all its conditions |
| Predictor.TwoTargetsAreValidIff | src/mlx_moe_stream/prefetch/predictive.py:70-93 | the bounds on ids, confidences and their sum, exactly, on the smallest predictor with two targets |
| Predictor.Predict | src/mlx_moe_stream/prefetch/predictive.py:105-124 | the proposed experts, each once, ranked by average confidence and then id |
| Predictor.ConfidenceIs | src/mlx_moe_stream/prefetch/predictive.py:113-118 | what a list of distinct candidates gives to an expert is that expert's own confidence |
| Predictor.PredictionMass | src/mlx_moe_stream/prefetch/predictive.py:113-124 | a prediction hands out exactly the average of what the observed sources give |
| Predictor.TrainedPredictionMass | src/mlx_moe_stream/prefetch/predictive.py:105-124 | with a trained predictor that is at most one |
| Predictor.PredictivePrefetchScheduler.Schedule | src/mlx_moe_stream/prefetch/predictive.py:203-233 | one call offers and counts the candidates as the limits demand |
| Predictor.LimitsHold | src/mlx_moe_stream/prefetch/predictive.py:214-230 | a call never exceeds the candidate or byte limit, and refuses a confident candidate only when a limit is exhausted |
| Predictor.SiftIsGreedy | src/mlx_moe_stream/prefetch/predictive.py:214-230 | each candidate by what was offered before it: offered exactly when it is confident enough, a place is left and its bytes fit |
| Predictor.EveryCandidateIsCounted | src/mlx_moe_stream/prefetch/predictive.py:203-244 | over any run, candidates considered are those submitted plus the four skip counters |
| Predictor.CountersAreVerdicts | src/mlx_moe_stream/prefetch/predictive.py:203-244 | over any run each of the seven counters is the number of calls, candidates or verdicts it names |
| GenerationSlot.LocalGenerationService.BeginGeneration | src/mlx_moe_stream/server/app.py:528-570 | a request takes the slot, is refused as busy, or gives the slot back when its setup fails |
| GenerationSlot.LocalGenerationService.FailGeneration | src/mlx_moe_stream/server/app.py:858-863 | failing settles and releases once, and counts one failed request exactly when it was not settled |
| GenerationSlot.LocalGenerationService.CompleteGeneration | src/mlx_moe_stream/server/app.py:770-856 | completing settles and releases once, also when the metrics fail, but not when they are interrupted, and counts one completed request exactly when it does not raise |
| GenerationSlot.LocalGenerationService.ResumeBody | src/mlx_moe_stream/server/app.py:667-723 | the event generators up to their next chunk or their end |
| GenerationSlot.LocalGenerationService.StreamNext | src/mlx_moe_stream/server/app.py:204-208 | a pull marks the stream started and drops the abandon callback first |
| GenerationSlot.LocalGenerationService.StreamClose | src/mlx_moe_stream/server/app.py:210-216 | closing settles a stream that never started, or ends its generator |
| GenerationSlot.StepKeepsInv | src/mlx_moe_stream/server/app.py:360-476 | every call keeps slot, flags and counters consistent |
| GenerationSlot.SlotIsReleasedAtMostOnce | src/mlx_moe_stream/server/app.py:101-145 | over any run no generation releases twice, the slot is held exactly when one generation is active, and requests are completed, failed or active |
| GenerationSlot.MetricsCountTheCalls | src/mlx_moe_stream/server/app.py:101-145 | over any run from the start the counters are counts of its calls: failed are setup failures and generations an error or a close ends first, completed those that reach their completion first and uninterrupted, rejected those that meet a held slot |
| GenerationSlot.CompletedStreamEnds | src/mlx_moe_stream/server/app.py:674-684 | after the pull that completes a stream one more chunk follows, or two with usage, and no later pull moves a counter |
| GenerationSlot.CloseReleases | src/mlx_moe_stream/server/app.py:185-216 | closing a stream at any point leaves its slot released, unless its metrics were interrupted, and closing again changes nothing |
| GenerationSlot.CollectReleases | src/mlx_moe_stream/server/app.py:360-442 | a non-streaming request releases the slot in the call that ends it, unless its metrics are interrupted |
| GenerationSlot.EveryEndedGenerationReleasedOnce | src/mlx_moe_stream/server/app.py:185-216 | in every run whose metrics are never interrupted, each generation whose body is over and each stream that was ever closed, pulled before or not, has released the slot exactly once |
| GenerationSlot.StrandedExactlyByInterruption | src/mlx_moe_stream/server/app.py:770-843 | a call makes a generation keep the slot exactly when an exception outside `Exception` interrupts the metrics of its completion, and never another generation |
| GenerationSlot.InterruptedMetricsKeepTheSlot | src/mlx_moe_stream/server/app.py:770-779 | a run from the start in which such an interruption keeps the slot: the assumption on the engine is needed |
| GenerationSlot.StrandedRefusesAll | src/mlx_moe_stream/server/app.py:535-539 | while a generation keeps the slot no request is accepted |
| KvPolicy.EstimateBf16Bytes | src/mlx_moe_stream/kv_cache.py:147-183 | the estimate by layer kinds and window, with its configuration errors |
| KvPolicy.EstimateIsExact | src/mlx_moe_stream/kv_cache.py:147-183 | exactly when a configuration has an estimate, and the estimate by the numbers of linear, sliding and full layers |
| KvPolicy.EstimateGrows | src/mlx_moe_stream/kv_cache.py:147-183 | a longer context never needs less |
| KvPolicy.QuantizedGrows | src/mlx_moe_stream/kv_cache.py:186-191 | quantized estimates grow with the bytes to store |
| KvPolicy.QuantizedIsExact | src/mlx_moe_stream/kv_cache.py:186-191 | the bits of all elements in whole bytes, and two bytes for each started group |
| KvPolicy.QuantizingSavesIff | src/mlx_moe_stream/kv_cache.py:186-191 | four bits never need more than eight, and quantizing never needs more than BF16 exactly for groups of two or more or nothing to store |
| KvPolicy.AutoPicksTheBestFit | src/mlx_moe_stream/kv_cache.py:91-103 | the automatic mode is the most precise one that fits, and fits whenever any does |
| KvPolicy.AutoOnlyMovesDown | src/mlx_moe_stream/kv_cache.py:73-103 | with a longer context or a larger shell it only moves to fewer bits |
| KvPolicy.DecisionIsExact | src/mlx_moe_stream/kv_cache.py:57-115 | an explicit mode is kept, the reservation is the larger of the configured one and the estimate, and the allowance is a quarter of the headroom |
| KvPolicy.PlanHoldsWholeContext | src/mlx_moe_stream/kv_cache.py:118-124 | every cached plan made with the reservation leaves room for the KV cache of the whole context |

## Left out

- Markers.Retained: text is a sequence of code points; no encoding or normalisation.
- ToolCallStream.ToolCallStreamParser.FlushText: the call parser (JSON, XML and Gemma syntax, schema checks, ids) is a function parameter; bare JSON calls outside markers, which only the batch path converts, are not modelled.
- ChatStream.ChatEvents: the JSON of the chunks, the role and usage chunks, enforcing a tool choice, and the text between two pulls of the client; `GenerationSlot` has the life of the request around it.
- GemmaKeys.QuoteGemmaObjectKeys: what the JSON parser does with the result.
- LruPolicy.SimulateLruCurve: the capacity of a fraction is computed in exact reals, where the source rounds a float product up.
- ResidentCache.ResidentCache.Lookup: hits and misses by layer.
- Runtime.PinsNeverChangeVictims: runs in which a read fails or the budget is exceeded end the comparison at that layer; `Runtime.ExecuteRaisesIff` says when that is, and `Runtime.LayerIsExact` covers those runs.
- Runtime.CachedExpertRuntime.ExecuteExpert: per-layer statistics, route history, residence times and the timeline.
- Runtime.ExecuteRaisesIff: allocation failures while arrays are materialized.
- Warmup.WarmCache: the ordering of the keys by disk position, as any order is allowed, and reading ahead through the loader. Deadlines and memory ceilings are answers from outside.
- Warmup.FullResidencyIsExact: covers runs without pressure actions, as shrinking the cache ends full residency.
- MemoryPressure.PlanFitsWorkingSet: the wired limit, the log messages and the formulas for automatic margins.
- AsyncLoader.EveryInterleavingIsSafe: the statistics counters and the timeline of the loader. Each critical section is one atomic step, as its lock makes it.
- ExpertStore.SafetensorsExpertStore.PreadRange: the cache of open descriptors, short reads of a file that changes meanwhile, and the resolution of paths; a path is its own identity.
- Repack.CopyBundles: a source span lying in the blob's own path, which opening the blob would truncate; the check for free disk space, the progress output and the sampled hash comparison after copying.
- ManifestBuild.ReadHeader: JSON parsing and the order of the error messages. Names are matched to layers, projections and experts beforehand, so the patterns of the three model families and duplicate spellings of one expert number are not modelled.
- ManifestBuild.Validate: quantization settings and shard lists.
- ExpertMajor.StreamingSwitchGLU.ExpertMajorPrefill: errors raised by an expert, by an unknown order or by an expert without a bundle, and the reshaping of arrays.
- Predictor.Train: floating-point rounding; the tolerance of validation is kept.
- Predictor.PredictivePrefetchScheduler.Schedule: loading and saving predictors, and matching one against a manifest.
- GenerationSlot.LocalGenerationService.ResumeBody: what the engine does between two chunks is an outcome of the call; that chunks are built without error is taken for granted.
- GenerationSlot.SlotIsReleasedAtMostOnce: exceptions delivered by signals between two statements, and streams that are neither pulled nor closed.
- KvPolicy.EstimateBf16Bytes: the reason text and the generation arguments of a decision.
- Not modelled at all: MLX arrays and quantized arithmetic, model shells, tokenizers and image input, HTTP and SSE transport, the startup advisor's estimates, the model registry, tracing, and option parsing.

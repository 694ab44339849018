# Write-side stream decorators and the span writer

This project models the write side of a small Go I/O package. It covers:

- the hook decorators, which run ordered callbacks before or after `Write` and `Close`;
- the quota option `WithMaxBytes`;
- the synced decorator, with its `isClosed` latch;
- the span writer, which cuts one logical stream into segments of at most `maxBytes` bytes.

Every decorator wraps exactly one inner `io.WriteCloser`. So a decorated stream is a chain of layers above a raw stream. Here the chain is the class `Stack.Stream`:

- `layers` is the decorators, outermost first;
- `cells` is each layer's own mutable state: a quota counter, a latch, or nothing;
- `sink` is the raw stream: the bytes it holds and how often it was written and closed;
- a ghost `log` records the callbacks, in the order they run.

An oracle, `Behaviour`, gives the raw stream's outcome for its k-th write and its k-th close. A raw write's count is clamped to the payload length.

The specification is two pure functions over the value `World(cells, sink, log)`: `WriteFrom` (a call entering at layer `i`) and `CloseFrom`. The methods `Stream.WriteAt` / `Stream.CloseAt` and the per-layer methods run the decorators' loops. Their contracts state that they compute exactly these functions. The properties of the source are lemmas about the functions.

`WithMaxBytes(maxBytes)` puts a pre-write check and a post-write counter around the writer. The two share one `bytesWritten`. The model has them as one `Quota(maxBytes)` layer that owns that counter.

The span writer has two parts:

- `Span.SpanWriter`, a class with the closure state of `NewSpanWriter` as fields: `fileSequence`, `current` and `lastErr`;
- the pure functions `ReInit`, `SpanWrite` and `SpanClose` over a value `SpanView`.

The class's methods are proved to compute these functions. `SpanView` also keeps, as ghost data, the segments the writer has let go and the file id of every factory call. Each segment is a stream with layers `[Synced, Quota(maxBytes)]`, which is what `NewLimitedWriter(w, WithMaxBytes(maxBytes))` builds.

Modules:

- `Errors`: bytes, the error kinds, and `Option`.
- `Stack`: layers, the specification functions, and `Stream`.
- `Callbacks`: `CustomWriteCloser` and the four hook constructors.
- `Synced`: the latch.
- `Limited`: the options and `NewLimitedWriter`.
- `Span`: the span writer.

Where the code and the intended behaviour differ, the model follows the code:

- The span writer throws away an error from the first write attempt unless it is `ErrTooLargeWrite`. It returns `n` with `lastErr`, which is nil at that point (writer_span.go:63). It does not pass the error through. See `Span.FittingWrite`.
- When it rotates, the span writer never closes the old segment itself. The quota's pre-check closes the raw stream when a write does not fit (writer_limited.go:28). If that close fails, the quota reports the wrapped close error. The comparison at writer_span.go:51 is by identity, so the wrapped error is not `ErrTooLargeWrite`. The span writer then returns `(0, nil)`, holds no error and opens nothing. See `Span.FailedQuotaCloseIsSilent`.
- A write longer than `maxBytes` still closes the current segment's raw stream, whatever that segment holds. That segment stays current. A later `Close` therefore closes that raw stream a second time, and a later write that fits goes to the closed raw stream. See `Span.PermanentOverflow` and the third segment of `Span.ThreeSegmentRun`.
- A failed `Close` does not set `lastErr` (writer_span.go:35-37). It does set the segment's synced latch, so a later `Write` gets `ErrAlreadyClosed` from the latch. That error is dropped as above, and the call returns `(0, nil)`. See `Span.FailedCloseLeavesNoError`.
- A failed factory call is not permanent. The next `Write` calls the factory again, with the next sequence number (writer_span.go:43-45).
- The synced decorator sets `isClosed` before it calls the inner `Close` (writer_synced.go:41-42). The effect is the same as setting it afterwards regardless of the result.

## Model

| member | source | states |
|---|---|---|
| Stack.WriteFrom | writer_callback.go:31-37 | what `Write(p)` does from layer `i` down; whatever the decorators are, the raw stream's contents grow by exactly `p[..n]` with `n <= len(p)`, outer layers' state is untouched, counters never decrease, latches are never reset, and the log only grows |
| Stack.CloseFrom | writer_callback.go:64-71 | what `Close()` does from layer `i` down; it never changes a counter or the raw stream's contents, and latches are never reset |
| Stack.FirstFailing | writer_callback.go:32-36 | the index of the first callback that returned an error: every earlier one returned nil, and the one at that index did not |
| Stack.FreshWorld | writer_limited.go:24 | a newly built chain is well formed, every quota counter is 0, every latch is open, and nothing was written, closed or logged |
| Stack.Stream.constructor | writer_span.go:24 | a raw stream with no decorator and nothing written |
| Stack.Stream.Wrap | writer_callback.go:29-30 | a decorator around `inner` takes over its state, with its own state freshly initialised |
| Stack.Stream.Write | writer_callback.go:16-18 | `Write` computes `WriteFrom` from the outermost layer |
| Stack.Stream.Close | writer_callback.go:21-23 | `Close` computes `CloseFrom` from the outermost layer |
| Stack.Stream.WriteAt | writer_synced.go:23-31 | each layer's `Write` computes `WriteFrom`: the synced check, pass-through, the raw write |
| Stack.Stream.WritePreHooked | writer_callback.go:31-38 | the pre-write loop with early return computes `WriteFrom` for that layer |
| Stack.Stream.WritePostHooked | writer_callback.go:48-56 | the inner write followed by the observer loop computes `WriteFrom` for that layer |
| Stack.Stream.WriteLimited | writer_limited.go:26-38 | the quota check, the close on overflow and the counter update compute `WriteFrom` for that layer |
| Stack.Stream.CloseAt | writer_synced.go:34-43 | each layer's `Close` computes `CloseFrom`: latch first, then the inner close |
| Stack.Stream.ClosePreHooked | writer_callback.go:64-71 | the pre-close loop with early return computes `CloseFrom` for that layer |
| Stack.Stream.ClosePostHooked | writer_callback.go:80-86 | the inner close followed by the observer loop computes `CloseFrom` for that layer |
| Callbacks.CustomWriteCloser.constructor | writer_callback.go:10-13 | the object holds the two given functions |
| Callbacks.CustomWriteCloser.Write | writer_callback.go:16-18 | returns exactly what the `Writer` function returns |
| Callbacks.CustomWriteCloser.Close | writer_callback.go:21-23 | returns exactly what the `Closer` function returns |
| Callbacks.NewPreWriteCallbacks | writer_callback.go:28-40 | adds one pre-write layer, outermost, over the unchanged inner state |
| Callbacks.NewPostWriteCallbacks | writer_callback.go:45-58 | adds one post-write layer, outermost, over the unchanged inner state |
| Callbacks.NewPreCloseCallbacks | writer_callback.go:62-74 | adds one pre-close layer, outermost, over the unchanged inner state |
| Callbacks.NewPostCloseCallbacks | writer_callback.go:78-89 | adds one post-close layer, outermost, over the unchanged inner state |
| Callbacks.PreWriteRunsInOrder | writer_callback.go:32-33 | the pre-write log has one entry per callback run, the j-th for callback j |
| Callbacks.PreCloseRunsInOrder | writer_callback.go:65-66 | the pre-close log has one entry per callback run, the j-th for callback j |
| Callbacks.WriteObservationsInOrder | writer_callback.go:51-53 | the j-th post-write observation is observer j seeing `(p, n, err)` |
| Callbacks.CloseObservationsInOrder | writer_callback.go:82-84 | the j-th post-close observation is observer j seeing the close error |
| Callbacks.PreWriteStopsAtFirstError | writer_callback.go:32-36 | at the first failing callback, `Write` returns `(0, that error)`; callbacks 0..k ran and no later one did; nothing below is touched |
| Callbacks.PreWriteAllPass | writer_callback.go:37 | when every callback passes, all run in order and the result is the inner `Write(p)` |
| Callbacks.PostWriteObservesInnerWrite | writer_callback.go:48-55 | the inner write runs once; every observer sees its `(p, n, err)` in order; `(n, err)` is returned unchanged |
| Callbacks.PreCloseStopsAtFirstError | writer_callback.go:65-69 | the first failing callback's error is returned and the inner `Close` is not reached |
| Callbacks.PreCloseAllPass | writer_callback.go:70 | when every callback passes, the result is the inner `Close()` |
| Callbacks.PostCloseObservesInnerClose | writer_callback.go:80-86 | the inner close runs once; each observer gets its error in order; that error is returned |
| Callbacks.WriteHooksPassClose | writer_callback.go:30 | the write decorators hand `Close` straight to the inner stream (also writer_callback.go:47) |
| Callbacks.CloseHooksPassWrite | writer_callback.go:72 | the close decorators hand `Write` straight to the inner stream (also writer_callback.go:87) |
| Synced.NewSyncedWriteCloser | writer_synced.go:18-20 | adds an open latch, outermost, over the unchanged inner state |
| Synced.WriteWhileOpen | writer_synced.go:27-30 | while open, `Write` is the inner write and the latch stays open |
| Synced.WriteAfterClose | writer_synced.go:27-29 | once closed, `Write` returns `(0, ErrAlreadyClosed)` and nothing changes |
| Synced.FirstClose | writer_synced.go:41-42 | the first `Close` sets the latch, then returns the inner close's result |
| Synced.SecondCloseFails | writer_synced.go:38-40 | after any `Close`, a second `Close` and any `Write` return `ErrAlreadyClosed` without reaching the inner stream |
| Synced.Replay | writer_synced.go:23-43 | replaying calls keeps the chain well formed |
| Synced.ClosesRawAtMostOnce | writer_synced.go:38-42 | over any sequence of calls, the raw stream is closed at most once through the wrapper, exactly when the latch is set |
| Synced.StartsOpen | writer_synced.go:19 | a new wrapper starts open, with its inner stream not closed |
| Limited.FoldedInOrder | writer_limited.go:12-14 | options wrap in order: the last option is outermost, and the inner layers stay below |
| Limited.ZeroCountersAreZero | writer_limited.go:24 | every `WithMaxBytes` decorator starts its counter at 0 |
| Limited.NewLimitedWriter | writer_limited.go:11-17 | the loop folds the options over `w`, then adds the synced latch: the latch is outermost and open, layer `k` is the quota of the k-th option from the end, with its counter at 0, the inner layers and state lie below unchanged |
| Limited.FoldOptions | writer_limited.go:12-14 | the option loop puts one quota per option around `w`, the last option outermost, each with a counter at 0, and leaves the raw stream and the log as they were |
| Limited.LimitedShape | writer_limited.go:11-17 | in the built chain, layer 0 is the open latch, the next layers, one per option, are the options' quotas in reverse order with counters at 0, and the inner writer's layers and state follow unchanged |
| Limited.Apply | writer_limited.go:25-39 | `o(w)` adds a quota layer with counter 0 over the unchanged inner state |
| Limited.FoldStep | writer_limited.go:13 | one more option adds one layer, outermost, with a counter at 0 |
| Limited.WriteWithinQuota | writer_limited.go:36-38 | a write that fits reaches the inner writer; its result is returned; the counter grows by exactly its `n` and stays within `maxBytes` |
| Limited.WriteOverQuota | writer_limited.go:27-31 | a write that does not fit returns 0 and is not written; the inner writer is closed instead; the error is `ErrTooLargeWrite`, or the close error wrapped |
| Limited.FreshWithinQuota | writer_limited.go:24 | a new chain satisfies the quota invariant |
| Limited.WriteKeepsQuota | writer_limited.go:37 | `Write` keeps every counter between 0 and its `maxBytes`, since inner writes report `n <= len(p)` |
| Limited.CloseKeepsQuota | writer_limited.go:28 | `Close` keeps the quota invariant |
| Limited.ExactFillThenRefuse | writer_limited_test.go:15-31 | with `maxBytes = 32`, a 32-byte write is taken whole and any further non-empty write is refused with `ErrTooLargeWrite`; the buffer keeps exactly the first 32 bytes |
| Span.SegmentLayers | writer_span.go:26 | each segment is the synced latch over one quota layer |
| Span.SegmentShape | writer_span.go:26 | a fresh segment has an open latch and a counter at 0 |
| Span.ReInit | writer_span.go:23-29 | reopening leaves the writer ready: a segment, or else a held error |
| Span.NewSpan | writer_span.go:31 | the writer is ready after construction |
| Span.SpanWrite | writer_span.go:42-64 | the `Write` closure leaves the writer ready |
| Span.Rotate | writer_span.go:56-60 | the reopen-and-retry step leaves the writer ready |
| Span.SpanClose | writer_span.go:34-41 | the `Close` closure leaves the writer ready |
| Span.WriteKeepsSegment | writer_limited.go:36-38 | a segment write keeps the segment well kept: its byte count equals its counter, within quota |
| Span.CloseKeepsSegment | writer_synced.go:41-42 | a segment close keeps the segment well kept |
| Span.ReInitKeepsConsistent | writer_span.go:24-28 | reopening keeps the invariant: the k-th factory call got `id(k)`, and each segment came from the factory for its id, with sequence numbers increasing |
| Span.NewSpanConsistent | writer_span.go:18-31 | the invariant holds after construction |
| Span.UpdateCurrentKeepsConsistent | writer_span.go:50 | replacing the current segment by a well-kept state keeps the invariant |
| Span.SpanWriteKeepsConsistent | writer_span.go:42-64 | `Write` keeps the invariant |
| Span.RotateKeepsConsistent | writer_span.go:56-60 | the rotation keeps the invariant |
| Span.SpanCloseKeepsConsistent | writer_span.go:34-41 | `Close` keeps the invariant |
| Span.SegmentsWithinQuota | writer_span.go:10-12 | no segment ever holds more than `maxBytes` bytes |
| Span.ConcatAppend | writer_span.go:26 | the segments' concatenated bytes extend by the new segment's bytes |
| Span.ReInitKeepsContents | writer_span.go:23-29 | opening a segment, or failing to, moves no byte |
| Span.UpdateCurrentContents | writer_span.go:50 | the bytes of all segments are those retired, then the current segment's |
| Span.RefusedWriteIsEmpty | writer_limited.go:27-31 | when only the quota reports `ErrTooLargeWrite`, a refused segment write wrote nothing |
| Span.SpanWriteAppends | writer_span.go:42-64 | the segments' concatenated bytes grow by exactly the `p[..n]` each `Write` reports |
| Span.AttemptAppends | writer_span.go:50-63 | the same, once a segment is open and no error is held |
| Span.RotateAppends | writer_span.go:56-60 | the retry's bytes land at the end of the concatenation |
| Span.SpanCloseKeepsContents | writer_span.go:34-41 | `Close` moves no byte |
| Span.SegmentWrite | writer_limited.go:25-38 | everything a segment write can do: refuse on a set latch; close the raw stream and refuse on overflow; or write and count |
| Span.SegmentClose | writer_synced.go:34-43 | everything a segment close can do: refuse on a set latch, or set it and close the raw stream |
| Span.NewSpanOpensFirstSegment | writer_span.go:18-31 | construction calls the factory once, with `id(0)`; the result is a fresh segment, or no segment and the factory's error |
| Span.HeldErrorReturned | writer_span.go:46-48 | with a held error and a segment, `Write` returns `(0, lastErr)` and changes nothing |
| Span.MissingSegmentReopens | writer_span.go:43-45 | with no segment, `Write` first calls the factory for the next id and then acts on the result |
| Span.FittingWrite | writer_span.go:50-63 | a write that fits goes to the current segment alone; its count is returned and the raw error is dropped |
| Span.PermanentOverflow | writer_span.go:51-55 | a write longer than `maxBytes` returns `(0, ErrTooLargeWrite)` after the quota closed the raw stream; no factory call, no held error |
| Span.FailedQuotaCloseIsSilent | writer_span.go:50-63 | when the quota's raw close fails, `Write` returns `(0, nil)` and opens nothing |
| Span.OverflowRotates | writer_span.go:56-60 | on overflow with `len(p) <= maxBytes`: exactly one factory call, for the next id; the only write is into the fresh segment; its result is returned and its error held |
| Span.CloseHoldsAlreadyClosed | writer_span.go:34-40 | a successful `Close` closes the segment once and holds `ErrAlreadyClosed`; later writes and closes fail with it |
| Span.FailedCloseLeavesNoError | writer_span.go:35-37 | a failed `Close` returns the error without holding one; a later `Write` returns `(0, nil)` |
| Span.CloseOfClosedSegment | writer_synced.go:38-40 | `Close` on a closed segment returns `ErrAlreadyClosed` and changes nothing |
| Span.RunFirstWrite | writer_span_test.go:23-24 | with `maxBytes = 5`, 4 bytes go into the first segment |
| Span.RunSecondWrite | writer_span_test.go:25-26 | 2 more bytes move to a second segment for `id(1)`; the first buffer is closed |
| Span.RunThirdWrite | writer_span_test.go:27-28 | 2 more bytes join the second segment |
| Span.RunFourthWrite | writer_span_test.go:29-30 | 5 bytes open a third segment for `id(2)` |
| Span.RunOversizedWrite | writer_span_test.go:32-33 | a write of more than 5 bytes fails with `ErrTooLargeWrite` |
| Span.RunClose | writer_span_test.go:35-45 | `Close` succeeds, and a later write fails with `ErrAlreadyClosed` |
| Span.ThreeSegmentRun | writer_span_test.go:21-45 | the whole run: three segments for ids 0, 1 and 2, holding the 4 bytes, the two 2-byte writes and the 5 bytes |
| Span.SpanWriter.constructor | writer_span.go:13-33 | the new writer's state is `NewSpan` of its arguments |
| Span.SpanWriter.ReInitWriter | writer_span.go:23-29 | `reInitWriter` computes `ReInit` and builds a fresh segment stream |
| Span.SpanWriter.Write | writer_span.go:42-64 | `Write` computes `SpanWrite` |
| Span.SpanWriter.Close | writer_span.go:34-41 | `Close` computes `SpanClose` |

## Left out

- The mutex of the synced decorator (writer_synced.go:12, writer_synced.go:24-25). It concerns concurrency only. The model is single-threaded.
- `fmt.Sprintf` of the file-id pattern (writer_span.go:24). It is an abstract function `id: nat -> string`.
- `fmt.Errorf` wrapping (writer_limited.go:29). It is the constructor `Wrapped(inner)`. The message text is not modelled.
- Callbacks are pure functions: pre-hooks map the payload to an optional error. Post-hooks are names whose calls are recorded in the ghost log. A callback that changes other state, or that calls the stream itself, is not modelled.
- The quota's own internal pre-write and post-write callbacks are not recorded in the log. They are one `Quota` layer.
- Wrapping copies the inner stream's state into the new stream (ownership transfer). Using an inner handle after it has been wrapped, and any aliasing between handles, is not modelled.
- `WithMaxBytes` creates its counter when the option is made, not when it is applied (writer_limited.go:24). Applying one option value to two writers makes them share a counter. The model gives each application its own counter.
- Go's fixed-width `int` is not modelled: `bytesWritten + len(p)` cannot overflow, because integers are unbounded.
- A raw write's count is clamped to `|p|`, as `io.Writer` requires. The case of a writer that breaks that contract is not modelled.
- A factory that returns a writer together with an error is modelled as a failed open with no segment. The Go code would keep that writer, unwrapped, as `currentWriter`.
- A factory that returns neither a writer nor an error is not modelled: `Opened` always carries a stream. Go would panic on the first write.
- Go's nil-interface panic for `Close` without a segment (writer_span.go:35) is excluded by the precondition of `Span.SpanWriter.Close` and `Span.SpanClose`.
- Span.SpanWriteAppends: assumes that no raw stream reports `ErrTooLargeWrite` itself (`QuotaOnlyRefuses`). A raw stream that reports bytes written together with that error has them written again into the next segment.
- reader_closer.go: read-side pass-through with no logic; not modelled.
- writer_nopcloser.go: only its behaviour is used, as `Stack.Buffer`. That is a buffer that takes every write whole and whose close always succeeds.
- errors.go: its two sentinel errors are the constructors `AlreadyClosed` and `TooLargeWrite`.

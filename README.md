# Log viewer core: virtualized list, stream ingestion, timeline histogram

This project models, in Dafny, the three pieces of logic that drive a
browser log viewer.

- **Virtualization** (`virtualization.dfy`). The height ledger of a
  virtualized list is a map from row index to measured pixel height, with a
  fixed estimate for rows not yet measured. The window selector uses it to
  choose the rows to realize for a scroll position and a viewport height.
  The class `Virtualizer` holds the map as a field that `SetRowHeight`
  updates in place. Offsets, the total height and the start and end indices
  are loops, each proved equal to a recursive specification function
  (`Offset`, `FirstVisibleFrom`, `FirstBelowFrom`). Lemmas then show:
  - the window is inside the list;
  - every row overlapping the viewport is rendered;
  - offsets grow down the list;
  - a new measurement shifts only the offsets below the measured row;
  - with uniform heights the window has a closed form.
- **Stream ingestion** (`logstream.dfy`). One session fetches an NDJSON
  resource and reads it chunk by chunk. It keeps:
  - the parsed entries, in order;
  - the carry buffer for an incomplete line;
  - the bytes loaded and the byte total from `Content-Length`;
  - the error;
  - the loading flag;
  - the abort controller.

  The class `Session` has one method per transition: reset, the response
  checks, chunk processing, the read loop, the final flush, error
  classification, the whole session, abort and retry. Transport is data. A
  fetch rejects, is aborted by the user while pending, or produces a
  response. A body is a sequence of decoded chunks (text plus byte length)
  followed by how reading ended: done, a read that throws, or a user abort
  while a read is pending. The chunk parser and `JSON.parse` are foreign.
  They are function-valued constants of the session, so nothing is assumed
  about how they split or decode text. The final state of a session is
  proved as a function of what the network did (`EndedAfter`): entries,
  bytes, total, error, buffer, loading flag and controller.
- **Timeline** (`timeline.dfy`). Four helpers of the histogram:
  - the time range of the logs;
  - evenly spaced time buckets;
  - the count of logs per bucket;
  - the ticks of the count axis.

  Each is a method with its loop. Bucket arithmetic uses exact reals, and
  the division by zero that JavaScript allows is modelled explicitly.

`types.dfy` holds the shared `Option` type and the log entry: a millisecond
timestamp plus opaque string fields.

## Model

| member | source | states |
|---|---|---|
| `Virtualization.Virtualizer.constructor` | src/hooks/useVirtualization/useVirtualization.tsx:18-31 | An empty height map, with the estimated row height and the overscan as given. They default to 28 and 5. |
| `Virtualization.RowHeight` | src/hooks/useVirtualization/useVirtualization.tsx:38 | The height of a row is its measurement when the map has one, else the estimate. It is never negative while the ledger holds no negative height. |
| `Virtualization.Offset` | src/hooks/useVirtualization/useVirtualization.tsx:34-43 | The reference definition of a row's top edge: the heights of the rows above it, added up. It is non-negative while no height is negative. |
| `Virtualization.Virtualizer.GetRowOffset` | src/hooks/useVirtualization/useVirtualization.tsx:34-43 | The loop returns the sum of the heights of rows 0..index-1; a row without a measurement counts the estimate. Row 0 sits at offset 0, and the offset is non-negative when no height is negative. |
| `Virtualization.Virtualizer.TotalHeight` | src/hooks/useVirtualization/useVirtualization.tsx:46-52 | The loop returns the sum of all row heights, which equals the offset just past the last row. It is 0 for an empty list and non-negative when no height is negative. |
| `Virtualization.Virtualizer.FindStartIndex` | src/hooks/useVirtualization/useVirtualization.tsx:55-65 | The early-return loop returns the first row whose bottom edge passes scrollTop, minus the overscan and clamped at 0. When no row does, it returns max(0, itemCount-1). |
| `Virtualization.Virtualizer.FindEndIndex` | src/hooks/useVirtualization/useVirtualization.tsx:68-82 | Scanning from startIndex, the loop returns the first row whose top edge passes scrollTop + containerHeight, plus the overscan and capped at itemCount. When no row does, it returns itemCount. |
| `Virtualization.Virtualizer.SetRowHeight` | src/hooks/useVirtualization/useVirtualization.tsx:85-90 | The map gains the new height at `index`, and every other row keeps its height. Re-recording the current height leaves the map as it was. |
| `Virtualization.Virtualizer.Window` | src/hooks/useVirtualization/useVirtualization.tsx:120-128 | The render's startIndex, endIndex, offsetY and totalHeight satisfy start <= end <= itemCount. An empty list gives all zeros. With no negative height, 0 <= offsetY <= totalHeight, and every row overlapping the viewport lies in [start, end). |
| `Virtualization.FirstVisibleFrom` | src/hooks/useVirtualization/useVirtualization.tsx:55-65 | The least row at or after `from` whose bottom passes scrollTop: every earlier row ends at or above scrollTop. |
| `Virtualization.FirstBelowFrom` | src/hooks/useVirtualization/useVirtualization.tsx:68-82 | The least row at or after `from` whose top passes the limit: every earlier row starts at or above it. |
| `Virtualization.StartIndex` | src/hooks/useVirtualization/useVirtualization.tsx:55-65 | The start index is at most max(0, count-1), and 0 for an empty list. |
| `Virtualization.EndIndex` | src/hooks/useVirtualization/useVirtualization.tsx:68-82 | The end index is at most count and never below a start that lies inside the list. |
| `Virtualization.OffsetMonotone` | src/hooks/useVirtualization/useVirtualization.tsx:34-43 | With no negative height, offsets never decrease down the list. |
| `Virtualization.WindowBounds` | src/hooks/useVirtualization/useVirtualization.tsx:120-121 | 0 <= start <= end <= count for every input, and an empty list renders no rows. |
| `Virtualization.OffsetYWithinTotal` | src/hooks/useVirtualization/useVirtualization.tsx:120-128 | With no negative height, the window's translation lies between 0 and the list's height. |
| `Virtualization.WindowCoversViewport` | src/hooks/useVirtualization/useVirtualization.tsx:55-82 | Every row that shares a pixel with the viewport is inside the rendered window. |
| `Virtualization.OffsetAfterSetRowHeight` | src/hooks/useVirtualization/useVirtualization.tsx:85-90 | Measuring row k at height x leaves the offsets of rows up to k unchanged and shifts every later offset by x minus k's old height. |
| `Virtualization.SetRowHeightKeepsNonNegative` | src/hooks/useVirtualization/useVirtualization.tsx:85-90 | Recording a non-negative height keeps the ledger free of negative heights. |
| `Virtualization.UniformOffset` | src/hooks/useVirtualization/useVirtualization.tsx:34-43 | With nothing measured, row n sits at n times the estimate. |
| `Virtualization.FirstVisibleUnique` | src/hooks/useVirtualization/useVirtualization.tsx:55-65 | The characterization pins the first visible row down uniquely. |
| `Virtualization.FirstBelowUnique` | src/hooks/useVirtualization/useVirtualization.tsx:68-82 | The characterization pins the first row below the viewport down uniquely. |
| `Virtualization.UniformFirstVisible` | src/hooks/useVirtualization/useVirtualization.tsx:55-65 | With uniform height H, the first visible row is min(count, scrollTop / H). |
| `Virtualization.UniformFirstBelow` | src/hooks/useVirtualization/useVirtualization.tsx:68-82 | With uniform height H, the first row from s whose top passes the limit is min(count, max(s, limit / H + 1)). |
| `Virtualization.UniformWindow` | src/hooks/useVirtualization/useVirtualization.tsx:55-82 | With uniform height H, the start is max(0, S/H - overscan), or max(0, count-1) when S/H >= count. The end scan stops at row floor((S+V)/H)+1, the first row whose top lies strictly below S+V, so the end is min(count, (S+V)/H + 1 + overscan), or count when (S+V)/H + 1 >= count. |
| `Timeline.GetTimeRange` | src/components/Timeline/utils.ts:8-20 | The result is None exactly for no logs. Otherwise min <= every timestamp <= max, and both min and max occur among the timestamps. |
| `Timeline.TimeRangeIgnoresOrder` | src/components/Timeline/utils.ts:8-20 | Any reordering of the logs has the same range. |
| `Timeline.TimeRangeUnique` | src/components/Timeline/utils.ts:8-20 | At most one range bounds the logs and is attained by them. |
| `Timeline.NthBucketWidth` | src/components/Timeline/utils.ts:34-39 | Bucket i has the common width and ends where bucket i+1 starts. |
| `Timeline.LastBucketEndsAtMax` | src/components/Timeline/utils.ts:31-38 | The last of count buckets laid from min ends exactly at max. |
| `Timeline.EvenBuckets` | src/components/Timeline/utils.ts:31-39 | The built buckets start at min + i*size, have width size, start at min, end at max, are contiguous, and are non-empty when min < max. |
| `Timeline.CreateTimeBuckets` | src/components/Timeline/utils.ts:25-42 | min == max gives the single bucket [min, max]. Otherwise the result has max(count, 0) buckets, each starting at min + i*size with width size, contiguous, from min to max, and each non-empty when min < max. |
| `Timeline.Clamp` | src/components/Timeline/utils.ts:65 | The result is in [0, hi], and an index already in range is kept. |
| `Timeline.BucketIndex` | src/components/Timeline/utils.ts:62-65 | The index is always below the bucket count. It is None (a NaN index) exactly when the width is zero and the time equals the first start. |
| `Timeline.AssignmentSize` | src/components/Timeline/utils.ts:56-58 | The width used for assignment is 1 for a single bucket. Otherwise the number of buckets times the width spans the first start to the last end. |
| `Timeline.IndexOf` | src/components/Timeline/utils.ts:56-65 | A log's bucket is always below the bucket count. It has none (a NaN index) exactly when there are several buckets, the span is zero and the log is at the first start. |
| `Timeline.Histogram` | src/components/Timeline/utils.ts:47-71 | One counter per bucket, in bucket order, each carrying its bucket. |
| `Timeline.TotalIncrement` | src/components/Timeline/utils.ts:67 | Incrementing one counter adds one to the total. |
| `Timeline.TotalOfZeros` | src/components/Timeline/utils.ts:49-52 | The initial all-zero counters total zero. |
| `Timeline.HistogramSnoc` | src/components/Timeline/utils.ts:60-68 | Counting one more log increments exactly its own bucket and leaves the others unchanged. |
| `Timeline.HistogramTotal` | src/components/Timeline/utils.ts:60-68 | When every log has a bucket, the counts sum to the number of logs. |
| `Timeline.AssignLogsToBuckets` | src/components/Timeline/utils.ts:47-71 | No buckets gives []. The result fails (the source throws) exactly when some log's index is NaN. Otherwise it is the histogram: the counters match the buckets, in order, and they sum to the number of logs. |
| `Timeline.UpperBoundaryInLastBucket` | src/components/Timeline/utils.ts:62-65 | A log exactly at the last bucket's end is counted in the last bucket. |
| `Timeline.LogInsideBucket` | src/components/Timeline/utils.ts:62-65 | With positive evenly spaced widths, a log inside bucket k is counted in bucket k. |
| `Timeline.Log10Floor` | src/components/Timeline/utils.ts:81 | k is the one exponent with 10^k <= n < 10^(k+1). |
| `Timeline.Magnitude` | src/components/Timeline/utils.ts:81 | The largest power of ten m <= n, so that m <= n < 10m. |
| `Timeline.CeilDiv` | src/components/Timeline/utils.ts:82 | q is ceil(n/d): (q-1)*d < n <= q*d. |
| `Timeline.NiceMax` | src/components/Timeline/utils.ts:81-82 | The rounded maximum is at least n, less than n plus its magnitude, and at most ten times the magnitude. |
| `Timeline.Round` | src/components/Timeline/utils.ts:88 | Math.round: the result is within half of x, with halves rounded up. |
| `Timeline.Tick` | src/components/Timeline/utils.ts:84-89 | Tick i is round(i * top / (tickCount - 1)), and tick 0 is 0. |
| `Timeline.TicksSpanZeroToTop` | src/components/Timeline/utils.ts:84-89 | With at least two ticks, the first is 0, the last is the top, and the ticks never decrease. |
| `Timeline.CalculateYAxisTicks` | src/components/Timeline/utils.ts:77-92 | maxCount 0 gives [0]. Otherwise the result holds tickCount ticks, with tick i equal to round(i * niceMax / (tickCount-1)). With at least two ticks they run from 0 to niceMax >= maxCount and never decrease. |
| `Timeline.NiceMaxExamples` | src/components/Timeline/Timeline.test.tsx:126-136 | 97 rounds up to 100, 100 stays 100, and 8500 rounds up to 9000. |
| `Timeline.TicksFor97` | src/components/Timeline/Timeline.test.tsx:126-130 | Five ticks for a maximum of 97 are 0, 25, 50, 75, 100. |
| `LogStream.IsAbortError` | src/hooks/useLogStream/useLogStream.tsx:89 | A thrown value counts as an abort exactly when it is an Error whose name is that of the rejection an abort produces, "AbortError"; its message does not matter. |
| `LogStream.Classify` | src/hooks/useLogStream/useLogStream.tsx:88-96 | No error exactly for an Error named AbortError. Any other Error is kept as thrown, and a non-Error value becomes Error("Unknown error occurred"). |
| `LogStream.ClassifyKeepsMessage` | src/hooks/useLogStream/useLogStream.test.tsx:70-81 | A thrown `new Error(m)`, such as a network error, is reported with its message m. |
| `LogStream.NatToString` | src/hooks/useLogStream/useLogStream.tsx:50 | A non-empty decimal numeral with no leading zero, except "0" itself. |
| `LogStream.DigitsRoundTrip` | src/hooks/useLogStream/useLogStream.tsx:50 | Reading the numeral of n back gives n. |
| `LogStream.Trim` | src/hooks/useLogStream/useLogStream.tsx:75 | String.prototype.trim: a contiguous piece of the text with only white space around it, which itself neither starts nor ends with white space. |
| `LogStream.TrimEmptyIffBlank` | src/hooks/useLogStream/useLogStream.tsx:75-78 | The trim is empty exactly when the text is all white space. |
| `LogStream.TrimKeepsSolid` | src/hooks/useLogStream/useLogStream.tsx:75 | Text with no white space at either end is its own trim. |
| `LogStream.ToNumber` | src/hooks/useLogStream/useLogStream.tsx:58 | The model evaluates Number(text) to an integer exactly when the trimmed text is a decimal numeral. Other text stays NonDecimal (see Left out). |
| `LogStream.ContentLengthToTotal` | src/hooks/useLogStream/useLogStream.tsx:57-58 | totalBytes is null exactly when the header is absent or empty. |
| `LogStream.ContentLengthRoundTrip` | src/hooks/useLogStream/useLogStream.tsx:57-58 | A Content-Length written from n bytes gives totalBytes n. |
| `LogStream.ResponseError` | src/hooks/useLogStream/useLogStream.tsx:49-55 | A response passes exactly when it is ok and has a body. A non-ok response fails first, with "HTTP error! status: N". An ok response without a body fails with "Response body is null". |
| `LogStream.HttpStatusInMessage` | src/hooks/useLogStream/useLogStream.tsx:49-51 | The status can be read back from the HTTP error message. |
| `LogStream.Fold` | src/hooks/useLogStream/useLogStream.tsx:103-114 | The reference definition of the read loop's parsing: each chunk is parsed against the carry the previous one left, and the entries are concatenated in order. No chunks give no entries and keep the buffer. |
| `LogStream.SumBytes` | src/hooks/useLogStream/useLogStream.tsx:112 | The bytes the read loop adds up: 0 for no chunks, and never less than any one chunk's byte length. |
| `LogStream.FoldAppend` | src/hooks/useLogStream/useLogStream.tsx:65-72 | Processing chunks xs then ys from a buffer equals processing xs+ys. The second part starts from the first part's carry, and its entries follow the first part's. |
| `LogStream.FoldOnlyAppends` | src/hooks/useLogStream/useLogStream.tsx:69-71 | Entries are only appended: what earlier chunks produced stays a prefix. |
| `LogStream.SumBytesAppend` | src/hooks/useLogStream/useLogStream.tsx:112 | Byte counts add up across any split of the chunks. |
| `LogStream.ReadOneMore` | src/hooks/useLogStream/useLogStream.tsx:112-114 | One more chunk adds its byte length and appends its entries, parsed against the current carry. |
| `LogStream.FlushEntry` | src/hooks/useLogStream/useLogStream.tsx:74-86 | The flush appends at most one entry. It appends exactly one when the trimmed remainder is non-empty and parses, and that entry is the parse of the remainder. |
| `LogStream.FlushBlankAddsNothing` | src/hooks/useLogStream/useLogStream.tsx:75-78 | A blank remainder appends nothing. |
| `LogStream.Failure` | src/hooks/useLogStream/useLogStream.tsx:120-133 | A rejected fetch fails with its thrown value, and an abort while fetching fails with an AbortError. |
| `LogStream.ResponseSession` | src/hooks/useLogStream/useLogStream.tsx:120-133 | A failing response reads nothing, fails with its check's Error and leaves the total null. A passing one reads its chunks, takes the total from Content-Length and fails as its reading ended. |
| `LogStream.SessionReportsNonAbortFailures` | src/hooks/useLogStream/useLogStream.tsx:127-129 | A session reports an error exactly when it failed with something other than an abort. A user abort fails with an AbortError, and a session without failure read its whole body. |
| `LogStream.MoreChunksExtendLogs` | src/hooks/useLogStream/useLogStream.tsx:103-115 | A longer body only appends entries and adds exactly the extra chunks' bytes. |
| `LogStream.AbortController.constructor` | src/hooks/useLogStream/useLogStream.tsx:31 | A new controller is not aborted. |
| `LogStream.AbortController.Abort` | src/hooks/useLogStream/useLogStream.tsx:27-28 | Aborting leaves the controller aborted. |
| `LogStream.Session.constructor` | src/hooks/useLogStream/useLogStream.tsx:17-24 | The initial state: no logs, not loading, no error, 0 bytes, no total, no controller, empty buffer. |
| `LogStream.Session.ResetForNewStream` | src/hooks/useLogStream/useLogStream.tsx:26-43 | The previous controller, if any, is aborted, and a fresh unaborted one is installed and returned. Loading is on, and error, bytes, total, logs and buffer are cleared. The timing start is recorded. |
| `LogStream.Session.FetchLogStream` | src/hooks/useLogStream/useLogStream.tsx:45-63 | The method throws exactly the check's Error and then leaves the total alone. Otherwise it hands back the body and sets the total from Content-Length. Nothing else changes. |
| `LogStream.Session.ProcessChunk` | src/hooks/useLogStream/useLogStream.tsx:65-72 | The buffer becomes the parser's new buffer. logs becomes old logs followed by the results, in order, and is unchanged when there are none. Nothing else changes. |
| `LogStream.Session.FlushRemainingBuffer` | src/hooks/useLogStream/useLogStream.tsx:74-86 | The buffer is emptied, and logs gains exactly FlushEntry of the old buffer: at most one entry. |
| `LogStream.Session.HandleStreamError` | src/hooks/useLogStream/useLogStream.tsx:88-96 | The method returns true exactly for an AbortError, leaving the error unchanged. Otherwise it sets the classified error and returns false. Nothing else changes. |
| `LogStream.Session.ReadChunks` | src/hooks/useLogStream/useLogStream.tsx:101-115 | logs and buffer end as the fold of the parser over the chunks. loadedBytes grows by exactly the sum of their byte lengths. The first-byte mark is made once if a chunk arrives and never for none. |
| `LogStream.Session.ReadStream` | src/hooks/useLogStream/useLogStream.tsx:98-118 | The read loop's whole effect, plus the failure that ended it. A user abort during the pending read aborts the controller and stops loading. |
| `LogStream.Session.Attempt` | src/hooks/useLogStream/useLogStream.tsx:123-126 | From a fresh reset, the try block leaves the entries, bytes, total, buffer and controller a function of the outcome, and returns the session's failure. |
| `LogStream.Session.AttemptResponse` | src/hooks/useLogStream/useLogStream.tsx:124-126 | The same, once fetch has produced a response. |
| `LogStream.Session.EndedAfter` | src/hooks/useLogStream/useLogStream.tsx:120-133 | The state a session ends in, as a function of the outcome. Loading is off, bytes are the sum over the chunks read, and the total is from Content-Length. The error is the classified failure. Without a failure, logs are the parsed entries plus the flushed remainder and the buffer is empty. With one, the parse so far and its carry remain. The controller is aborted exactly after a user abort. |
| `LogStream.Session.StreamLogs` | src/hooks/useLogStream/useLogStream.tsx:120-133 | The session ends as `EndedAfter(outcome)`: loading off; bytes are the sum over the chunks read; the total is from Content-Length; the error is the classified failure (none for an abort); logs are the parsed entries, plus the flushed remainder when the stream completed. The previous controller is aborted. The first-byte mark comes exactly once when a chunk arrived. |
| `LogStream.Session.Abort` | src/hooks/useLogStream/useLogStream.tsx:145-150 | With a controller, it is aborted and loading stops. Without one, nothing changes. |
| `LogStream.Session.Retry` | src/hooks/useLogStream/useLogStream.tsx:152-154 | A retry runs a fresh session, with the same guarantees as StreamLogs. |

## Left out

- The scroll listener, the `ResizeObserver` and React state
  (useVirtualization.tsx:93-118) are not modelled. `scrollTop` and
  `containerHeight` are parameters of `Virtualizer.Window`, and one call is
  one render.
- Pixel heights and offsets are unbounded integers. Fractional heights that
  a browser may measure, and floating-point rounding of the sums, are not
  modelled.
- `overscan` is a natural number. A negative overscan option is not modelled.
- `fetch`, `ReadableStream`, `TextDecoder`, the `useEffect` mount and
  unmount (useLogStream.tsx:135-143) and the interleaving of `await`s are not
  modelled. A session is one sequential run over data that says what the
  network did. Because of this, a stale session's late callbacks cannot
  arise in the model. The code has no guard against them beyond aborting
  the previous controller.
- The user's abort is an event at two points only: while fetch is pending,
  and while a read is pending. It then makes that fetch or read reject with
  an AbortError. The message of that rejection is a fixed text here, because
  browsers word it differently.
- The bodies of `parseNDJSONChunk` and `JSON.parse` are foreign. They are
  uninterpreted constants of a session, so no splitting or decoding
  behaviour is claimed.
- `JSON.parse` may yield a JSON value that is not a log entry. The model's
  parser returns a log entry or nothing.
- The `console.warn` of a failed flush is not modelled.
- The timing helpers are recorded only as the calls the session makes
  (start, first byte). Their marks and measures are left out.
- `LogStream.ToNumber` evaluates Number() only for decimal numerals, after
  trimming. For signs, decimals, exponents, hexadecimal and "Infinity",
  Number() yields some number, but the model keeps the text uninterpreted.
  Content-Length is defined as a decimal numeral.
- Bucket boundaries, bucket widths and tick steps are exact reals. The
  model does not capture the rounding of IEEE doubles, for example a last
  bucket ending a rounding error away from max.
- `Timeline.CreateTimeBuckets` gives no buckets when count is 0 or below,
  as the source's loop does. The infinite width it divides to is not
  computed.
- `Timeline.CalculateYAxisTicks` requires tickCount != 1 when maxCount > 0.
  With one tick the source divides by zero and pushes Math.round(0 * Infinity),
  which is NaN, and the model has no NaN tick.
- `Timeline.Log10Floor` is the exact floor of log10. The source uses
  floating-point Math.log10, which agrees on the integer counts the chart
  passes to it.
- `formatAxisTime`, `formatBytes` and all presentational components are not
  modelled.

# udpshooter reporter: a Dafny model of report generation

udpshooter is a UDP traffic generator. Its monitoring reporter (`reporter.go`) wakes up at a fixed interval. On each tick it copies the shared traffic counters under the store's read lock and works out bandwidth figures. It samples a few runtime statistics and assembles a report document. It serialises the document to JSON, POSTs it to a collector URL when one is configured, and logs a summary.

This project models the deterministic part of that work:

- **Interval** (`Telemetry.NewReporter`). The configured seconds become a Go `time.Duration`, counted in nanoseconds. The multiplication is done in int64 and wraps on overflow. A result that is not positive is replaced by 10 minutes. Because the check comes after the wrap, "not positive means 10 minutes" holds only when the product fits in int64.
- **Bandwidth** (`Telemetry.TotalBandwidth`, `Telemetry.SourceBandwidth`). The figure is `bytes*8 / (uptime*1e6)` Mbps. `bytes*8` is computed in int64, so it can wrap. The total is guarded only by `uptime > 0`. A per-source figure is also guarded by `bytes > 0`. The division is taken over the reals.
- **Snapshot** (`Telemetry.CopySourceStats`, `Telemetry.BuildReport`). A loop visits the store's sources in an arbitrary order. It fills a fresh map with one copy per source, each carrying its own bandwidth. The report also holds the totals, the uptime and the timestamp. The store's per-target map goes into the report untouched, and so do the system statistics.
- **GC pause** (`GCPause`). The reporter reads slot `NumGC % 256` of the runtime's circular buffer of pause durations. `GCPause.RingAfter` is a reference model of that buffer: the pause of the k-th collection goes to slot `k % 256`. The lemmas use it to say which pause the reporter actually reports.
- **Delivery** (`Delivery`). When serialisation fails, an error line is logged and the tick stops: nothing is sent and the report lines are not logged. Otherwise, when the URL is non-empty, one send is attempted. Either way the report lines are logged, whatever the send gave. The reply is classified: a 2xx status is a success, logged at debug level. Any other status is a warning. A request that cannot be built, or a transport failure, is an error.

The Go runtime's documentation of `runtime.MemStats` places the most recent pause at `PauseNs[(NumGC+255)%256]`. The code reads `NumGC % 256` and has no case for `NumGC == 0`. The model follows the code. `GCPause.ReportedPauseIsOldestRetained` shows what that slot holds. It is 0 (never written) while fewer than 256 collections have run, which covers `NumGC == 0`. After that it is the oldest pause still in the buffer, not the latest. `GCPause.LatestPauseSlot` shows that the latest pause sits at `(NumGC - 1) % 256`. `GCPause.LatestPauseNanos` reads that slot, with 0 when `NumGC == 0`, and `GCPause.LatestPauseNanosIsLatest` proves it returns the latest pause.

Int64 wrap-around is written out in `GoInt.Wrap`. Two consequences are stated explicitly:

- A configured interval above 9223372036 s or below −9223372036 s (about 292 years either way) overflows. The interval is then the wrapped product when that is positive, and 10 minutes otherwise. So a negative configuration can give a positive interval other than 10 minutes: −9223372037 s gives 9223372036709551616 ns (`Telemetry.IntervalOverflowExamples`).
- For byte counts in [2^60, 2^61) the product `bytes*8` wraps negative and so does the bandwidth (`Telemetry.BandwidthOverflowTurnsNegative`). At 2^61 it wraps to 0. From there the sign alternates every 2^60 bytes: a count whose remainder modulo 2^61 lies in [2^60, 2^61) gives a negative figure.

## Model

| member | source | states |
|---|---|---|
| `GoInt.Wrap` | reporter.go:60 | the result is an int64 congruent to the input modulo 2^64, and equals the input when the input fits in int64 (Go's wrapping int64 arithmetic) |
| `Telemetry.NewReporter` | reporter.go:56-80 | the interval is always positive. It is exactly seconds·10^9 ns when that product fits in int64 and the seconds are positive. It is exactly 10 minutes when the product fits in int64 (seconds ≥ −9223372036) and the seconds are not positive. On overflow in either direction it is the wrapped product if that is positive, else 10 minutes. URL and start time are the inputs |
| `Telemetry.IntervalOverflowExamples` | reporter.go:60-63 | a configuration of −9223372037 s gives an interval of 9223372036709551616 ns, not 10 minutes; one of 18446744074 s gives 290448384 ns |
| `Telemetry.Bits` | reporter.go:129 | `bytes*8` as Go computes it: equal to bytes·8 when that fits in int64, congruent to it modulo 2^64 otherwise |
| `Telemetry.TotalBandwidth` | reporter.go:126-130 | exactly 0 when uptime ≤ 0; exactly bytes·8/(uptime·10^6) when uptime > 0 and bytes·8 fits in int64; for every uptime > 0, the int64 `bytes*8` (`Bits`) divided by uptime·10^6 |
| `Telemetry.SourceBandwidth` | reporter.go:139-142 | exactly 0 unless uptime > 0 and bytes > 0; otherwise exactly bytes·8/(uptime·10^6), which is positive, when bytes·8 fits in int64, and in every case the int64 `bytes*8` (`Bits`) divided by uptime·10^6 |
| `Telemetry.SourceBandwidthAgreesWithTotal` | reporter.go:127-142 | for non-negative byte counts the per-source and total guards give the same figure; for a negative count of at least −2^60 bytes with uptime > 0, the source reports 0 while the total is negative |
| `Telemetry.OneMegabitPerSecond` | reporter.go:128-130 | 125000 bytes over 1 s is exactly 1 Mbps, for the total and for a source |
| `Telemetry.BandwidthOverflowTurnsNegative` | reporter.go:129 | for every byte count in [2^60, 2^61) and uptime > 0, the int64 product `bytes*8` is bytes·8 − 2^64 < 0 and both bandwidth figures are negative |
| `Telemetry.CollectSystemStats` | reporter.go:213-224 | core count, goroutine count and GC count are the runtime readings; memory figures are bytes/2^20; the pause is `GCPause.ReportedPauseNanos` (the nanoseconds in slot NumGC % 256, read with `GCPause.PauseSlot`) divided by 10^6 |
| `Telemetry.ReportedGCPause` | reporter.go:223 | against the runtime's buffer after a run of collections, the reported pause is 0 ms before 256 collections and otherwise the oldest retained pause |
| `GCPause.PauseSlot` | reporter.go:223 | the slot is within [0, 256) and congruent to NumGC modulo 256, for every uint32 NumGC |
| `GCPause.RingRetainsRecent` | reporter.go:223 | the runtime's buffer holds each of the last 256 pauses in slot (its index mod 256) |
| `GCPause.RingUnwritten` | reporter.go:223 | slots at or past the number of completed collections still hold 0 |
| `GCPause.LatestPauseSlot` | reporter.go:223 | the most recent pause is in slot (NumGC − 1) mod 256 |
| `GCPause.OldestRetainedSlot` | reporter.go:223 | once 256 or more collections have run, slot NumGC mod 256 holds the pause of collection NumGC − 256 |
| `GCPause.ReportedPauseIsOldestRetained` | reporter.go:223 | the slot the reporter reads (`GCPause.ReportedPauseNanos`) holds 0 while NumGC < 256 (including NumGC = 0) and the pause of collection NumGC − 256 otherwise |
| `GCPause.ReportedPauseMissesLatest` | reporter.go:223 | after one collection that paused 7 ns the reporter reports 0 ns, while the buffer holds 7 in slot 0 |
| `GCPause.LatestPauseNanosIsLatest` | reporter.go:223 | reading slot (NumGC + 255) mod 256, with 0 when NumGC = 0, gives the latest pause, which is the figure the slot read at this line misses |
| `Telemetry.CopySourceStats` | reporter.go:136-150 | the new map has exactly the store's source keys. Each entry keeps BytesSent, PacketsSent and LastActive, with that source's guarded bandwidth; the loop invariant is that the keys visited so far are exactly the keys copied |
| `Telemetry.BuildReport` | reporter.go:119-169 | the report carries the timestamp; totals equal to the store's byte and packet counters with the total bandwidth and the uptime; a source snapshot as above; the store's target map unchanged; the given system statistics |
| `Telemetry.ReportIsDetermined` | reporter.go:136-150 | two reports built from the same store reading are equal, whatever order the sources were visited in |
| `Telemetry.NoUptimeNoBandwidth` | reporter.go:127-150 | with uptime ≤ 0 the total bandwidth and every source's bandwidth in the report are exactly 0 |
| `Telemetry.EverySourceReported` | reporter.go:136-150 | every source of the store appears in the report; a source with 0 bytes appears with rate 0; a source with positive bytes gets bytes·8/(uptime·10^6) when uptime > 0 and no overflow |
| `Telemetry.GenerateReport` | reporter.go:119-181 | a tick's report is the snapshot of the store with the collected system statistics; a send is attempted iff serialisation succeeded and the URL is non-empty, and is then classified by its reply |
| `Delivery.ClassifySend` | reporter.go:228-253 | using the status test `Delivery.IsSuccessStatus` (reporter.go:249), a reply counts as accepted iff its status is in [200, 300), and as rejected iff it is a reply outside that range; a request that cannot be built and a transport failure each map to their own error outcome |
| `Delivery.Severity` | reporter.go:231-253 | accepted replies are logged at debug level, rejected ones as warnings, request and transport failures as errors |
| `Delivery.Dispatch` | reporter.go:171-181 | serialisation failure stops the tick (an error line is logged, no send, no report lines); otherwise a send is attempted iff the URL is non-empty, and the tick is local-only iff it is empty; `Delivery.LogsReport` holds, i.e. the report lines are logged, exactly when serialisation succeeded |
| `Delivery.DeliveryFailureStillLogs` | reporter.go:178-185 | once serialisation succeeds the report lines are logged (`Delivery.LogsReport`) whatever the collector does, and a non-2xx reply is a warning |

## Left out

- `Start`, `Stop` and `reportLoop` (reporter.go:83-116) are left out. They are goroutine, ticker, `context` and `sync.WaitGroup` lifecycle, i.e. concurrency.
- The store's read lock (reporter.go:120-121) is not modelled. A report is built from one immutable reading of the store, which is what holding the lock for the whole function guarantees.
- `time.Now` and `time.Since` are left out. The uptime in seconds and the report's timestamp are parameters.
- `runtime.ReadMemStats`, `runtime.NumCPU` and `runtime.NumGoroutine` are left out. Their readings are parameters.
- The runtime's own wrap of the uint32 `NumGC` is not modelled. The pause-buffer lemmas assume fewer than 2^32 collections.
- `json.MarshalIndent` is a foreign encoder. Whether it succeeded is the `marshalOk` input.
- HTTP request construction, the headers, the 30 s client timeout and `httpClient.Do` (reporter.go:66-68, 228-246) are network I/O. Their result is the `SendAttempt` input.
- The log lines and `formatBytes`/`formatNumber` (reporter.go:184-206) are left out. The model records only whether the report is logged and the level of the delivery message. The formatting helpers are not part of this model.
- IEEE-754 rounding is not modelled. Bandwidth, memory in MB and the pause in ms are exact quotients over the reals.
- Pointers and aliasing are not modelled. The report holds fresh `*SourceStats` copies but shares the store's `targetStats` map by reference. The model works on values, so this sharing is not captured.
- `SourceStats`' counters are taken to be int64, like the totals; the Go `SourceStats` type is not part of this model, and that choice decides the per-source wrap of `bytes*8`.
- The counter store's type and the configuration type are not part of this model. Only the fields the reporter reads are modelled. `config.Interval` is taken to be a 64-bit Go `int`.

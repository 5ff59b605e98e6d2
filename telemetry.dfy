/**
 * The deterministic core of the traffic reporter: the reporting interval
 * chosen at construction, the bandwidth figures, the point-in-time copy of
 * the traffic counters that goes into each report, and one tick of
 * report generation.
 *
 * Clocks, the runtime's statistics calls, the JSON encoder and the HTTP
 * client are outside the model: their readings are parameters.
 */
module Telemetry {
  import opened GoInt
  import opened GCPause
  import opened Delivery

  /** A wall-clock reading (a Go time.Time), carried through uninterpreted. */
  type Instant = int

  const NanosPerSecond: int := 1_000_000_000

  /** The interval used when the configured one is not positive: 10 minutes, in nanoseconds. */
  const DefaultInterval: int := 10 * 60 * NanosPerSecond

  /** The reporter's part of the configuration. */
  datatype ReportConfig = ReportConfig(intervalSeconds: Int64, url: string)

  /** The reporter's fixed settings; `interval` is a Go time.Duration (nanoseconds). */
  datatype Reporter = Reporter(interval: Int64, reportURL: string, startTime: Instant)

  /**
   * Construction: `intervalSeconds` seconds converted to nanoseconds with
   * Go's int64 multiplication, replaced by 10 minutes when not positive.
   */
  method NewReporter(config: ReportConfig, now: Instant) returns (r: Reporter)
    ensures r.interval > 0
    ensures FitsInt64(config.intervalSeconds * NanosPerSecond) && config.intervalSeconds > 0 ==>
              r.interval == config.intervalSeconds * NanosPerSecond
    ensures FitsInt64(config.intervalSeconds * NanosPerSecond) && config.intervalSeconds <= 0 ==>
              r.interval == DefaultInterval
    ensures Wrap(config.intervalSeconds * NanosPerSecond) > 0 ==>
              r.interval == Wrap(config.intervalSeconds * NanosPerSecond)
    ensures r.interval == Wrap(config.intervalSeconds * NanosPerSecond) || r.interval == DefaultInterval
    ensures r.reportURL == config.url && r.startTime == now
  {
    var interval := Wrap(config.intervalSeconds * NanosPerSecond);
    if interval <= 0 {
      interval := DefaultInterval;
    }
    r := Reporter(interval, config.url, now);
  }

  /**
   * The interval conversion is not guarded against int64 overflow, in either
   * direction: a negative configuration below -9223372036 s can wrap to a
   * positive count of nanoseconds instead of falling back to 10 minutes
   * (-9223372037 s gives about 292 years), and 18446744074 s wraps to
   * about 0.29 s.
   */
  method IntervalOverflowExamples() returns (fromNegative: Reporter, fromHuge: Reporter)
    ensures fromNegative.interval == 9223372036709551616 != DefaultInterval
    ensures fromHuge.interval == 290448384
  {
    fromNegative := NewReporter(ReportConfig(-9223372037, ""), 0);
    fromHuge := NewReporter(ReportConfig(18446744074, ""), 0);
  }

  // ---------------------------------------------------------------------
  // Counters and the report document

  /** Per-source counters; the reporter ignores the store's `bandwidthMbps`. */
  datatype SourceStats = SourceStats(bytesSent: Int64, packetsSent: Int64,
                                     bandwidthMbps: real, lastActive: Instant)

  /**
   * The shared counter store, as one consistent reading (the reporter holds
   * its read lock for the whole report). Per-target statistics have type `T`:
   * the reporter passes them along without looking inside.
   */
  datatype Stats<T> = Stats(bytesSent: Int64, packetsSent: Int64,
                            sourceIPStats: map<string, SourceStats>,
                            targetStats: map<string, T>)

  datatype TotalStats = TotalStats(bytesSent: Int64, packetsSent: Int64,
                                   bandwidthMbps: real, uptimeSeconds: real)

  datatype SystemStats = SystemStats(cpuCount: int, memoryUsageMB: real, memoryTotalMB: real,
                                     goroutineCount: int, gcCount: Uint32, gcPauseMs: real)

  datatype ReportData<T> = ReportData(timestamp: Instant, totalStats: TotalStats,
                                      sourceIPStats: map<string, SourceStats>,
                                      targetStats: map<string, T>,
                                      systemStats: SystemStats)

  /** The runtime's memory statistics the reporter reads. */
  datatype MemStats = MemStats(alloc: nat, sys: nat, numGC: Uint32, pauseNs: PauseRing)

  // ---------------------------------------------------------------------
  // Bandwidth

  /** The bits of a byte count as Go computes them: `bytes * 8` in int64. */
  function Bits(bytes: Int64): (bits: Int64)
    ensures FitsInt64(bytes * 8) ==> bits == bytes * 8
    ensures (bytes * 8 - bits) % TwoTo64 == 0
  {
    Wrap(bytes * 8)
  }

  /** Whole-run bandwidth in Mbps; only a positive uptime is guarded against. */
  function TotalBandwidth(bytesSent: Int64, uptime: real): (mbps: real)
    ensures uptime <= 0.0 ==> mbps == 0.0
    ensures uptime > 0.0 && FitsInt64(bytesSent * 8) ==>
              mbps == (bytesSent * 8) as real / (uptime * 1000000.0)
    ensures uptime > 0.0 ==> mbps == Bits(bytesSent) as real / (uptime * 1000000.0)
  {
    if uptime > 0.0 then Bits(bytesSent) as real / (uptime * 1000000.0) else 0.0
  }

  /** Per-source bandwidth in Mbps; zero unless both uptime and the byte count are positive. */
  function SourceBandwidth(bytesSent: Int64, uptime: real): (mbps: real)
    ensures !(uptime > 0.0 && bytesSent > 0) ==> mbps == 0.0
    ensures uptime > 0.0 && bytesSent > 0 && FitsInt64(bytesSent * 8) ==>
              mbps == (bytesSent * 8) as real / (uptime * 1000000.0) && mbps > 0.0
    ensures uptime > 0.0 && bytesSent > 0 ==> mbps == Bits(bytesSent) as real / (uptime * 1000000.0)
  {
    if uptime > 0.0 && bytesSent > 0 then Bits(bytesSent) as real / (uptime * 1000000.0) else 0.0
  }

  /**
   * The two guards differ only on negative byte counts: for a negative
   * count of at least -2^60 bytes with uptime > 0, the source reports 0
   * while the total is negative.
   */
  lemma SourceBandwidthAgreesWithTotal(bytesSent: Int64, uptime: real)
    ensures bytesSent >= 0 ==> SourceBandwidth(bytesSent, uptime) == TotalBandwidth(bytesSent, uptime)
    ensures bytesSent < 0 && uptime > 0.0 && FitsInt64(bytesSent * 8) ==>
              SourceBandwidth(bytesSent, uptime) == 0.0 && TotalBandwidth(bytesSent, uptime) < 0.0
  {
  }

  /** 125000 bytes in one second is exactly 1 Mbps. */
  lemma OneMegabitPerSecond()
    ensures TotalBandwidth(125000, 1.0) == 1.0
    ensures SourceBandwidth(125000, 1.0) == 1.0
  {
  }

  /**
   * `bytes * 8` is not guarded against int64 overflow: for byte counts in
   * [2^60, 2^61) the product wraps to a negative int64, so both bandwidth
   * figures are negative. At 2^61 it wraps to 0. From there the sign
   * alternates every 2^60 bytes: a count whose remainder modulo 2^61 lies
   * in [2^60, 2^61) gives a negative figure.
   */
  lemma BandwidthOverflowTurnsNegative(bytesSent: Int64, uptime: real)
    requires 0x1000_0000_0000_0000 <= bytesSent < 0x2000_0000_0000_0000
    requires uptime > 0.0
    ensures Bits(bytesSent) == bytesSent * 8 - TwoTo64 < 0
    ensures TotalBandwidth(bytesSent, uptime) < 0.0
    ensures SourceBandwidth(bytesSent, uptime) < 0.0
  {
    var bits := Bits(bytesSent);
    assert bits == bytesSent * 8 - TwoTo64 by {
      assert (bytesSent * 8 - bits) % TwoTo64 == 0;
      assert 0 < bytesSent * 8 - bits <= 2 * TwoTo64;
    }
  }

  // ---------------------------------------------------------------------
  // System statistics

  /**
   * The system figures of a report: memory in MB (divided exactly, over the
   * reals) and the GC pause, in ms, of slot NumGC % 256 of the pause buffer.
   */
  function CollectSystemStats(cpuCount: int, goroutineCount: int, mem: MemStats): (s: SystemStats)
    ensures s.cpuCount == cpuCount && s.goroutineCount == goroutineCount
    ensures s.gcCount == mem.numGC
    ensures s.memoryUsageMB * 1048576.0 == mem.alloc as real
    ensures s.memoryTotalMB * 1048576.0 == mem.sys as real
    ensures s.gcPauseMs * 1000000.0 == ReportedPauseNanos(mem.pauseNs, mem.numGC) as real
  {
    SystemStats(cpuCount, mem.alloc as real / 1024.0 / 1024.0, mem.sys as real / 1024.0 / 1024.0,
                goroutineCount, mem.numGC,
                ReportedPauseNanos(mem.pauseNs, mem.numGC) as real / 1000000.0)
  }

  /**
   * Against the runtime's pause buffer after `pauses`: the reported pause is
   * 0 ms until 256 collections have run (so also when none has), and then the
   * oldest pause still in the buffer.
   */
  lemma ReportedGCPause(cpuCount: int, goroutineCount: int, alloc: nat, sys: nat, pauses: seq<nat>)
    requires |pauses| <= MaxUint32
    ensures var s := CollectSystemStats(cpuCount, goroutineCount,
                                        MemStats(alloc, sys, |pauses|, RingAfter(pauses)));
            s.gcPauseMs * 1000000.0
            == (if |pauses| < RingSize then 0 else pauses[|pauses| - RingSize]) as real
  {
    ReportedPauseIsOldestRetained(pauses);
  }

  // ---------------------------------------------------------------------
  // The snapshot

  /** A report entry copies a source's counters and carries that source's own bandwidth. */
  ghost predicate CopiesSource(copy: SourceStats, live: SourceStats, uptime: real) {
    && copy.bytesSent == live.bytesSent
    && copy.packetsSent == live.packetsSent
    && copy.lastActive == live.lastActive
    && copy.bandwidthMbps == SourceBandwidth(live.bytesSent, uptime)
  }

  /** `snap` has one entry per source of `live`, none other, each a copy. */
  ghost predicate IsSourceSnapshot(snap: map<string, SourceStats>, live: map<string, SourceStats>,
                                   uptime: real) {
    && snap.Keys == live.Keys
    && forall ip :: ip in snap ==> ip in live && CopiesSource(snap[ip], live[ip], uptime)
  }

  /** A report built from one reading of the store at uptime `uptime`. */
  ghost predicate IsReportOf<T>(report: ReportData<T>, stats: Stats<T>, uptime: real,
                                now: Instant, system: SystemStats) {
    && report.timestamp == now
    && report.totalStats == TotalStats(stats.bytesSent, stats.packetsSent,
                                       TotalBandwidth(stats.bytesSent, uptime), uptime)
    && IsSourceSnapshot(report.sourceIPStats, stats.sourceIPStats, uptime)
    && report.targetStats == stats.targetStats
    && report.systemStats == system
  }

  /**
   * The per-source loop of report generation: a fresh map, filled entry by
   * entry while visiting the store's sources in an arbitrary order.
   */
  method CopySourceStats(live: map<string, SourceStats>, uptime: real)
    returns (snap: map<string, SourceStats>)
    ensures IsSourceSnapshot(snap, live, uptime)
  {
    snap := map[];
    var pending := live.Keys;
    while pending != {}
      invariant pending <= live.Keys
      invariant snap.Keys == live.Keys - pending
      invariant forall ip :: ip in snap ==> ip in live && CopiesSource(snap[ip], live[ip], uptime)
      decreases pending
    {
      var ip :| ip in pending;
      var stats := live[ip];
      var ipBandwidth := SourceBandwidth(stats.bytesSent, uptime);
      snap := snap[ip := SourceStats(stats.bytesSent, stats.packetsSent, ipBandwidth, stats.lastActive)];
      pending := pending - {ip};
    }
  }

  /** Assembles the report from one reading of the store. */
  method BuildReport<T>(stats: Stats<T>, uptime: real, now: Instant, system: SystemStats)
    returns (report: ReportData<T>)
    ensures report.timestamp == now
    ensures report.totalStats.bytesSent == stats.bytesSent
    ensures report.totalStats.packetsSent == stats.packetsSent
    ensures report.totalStats.bandwidthMbps == TotalBandwidth(stats.bytesSent, uptime)
    ensures report.totalStats.uptimeSeconds == uptime
    ensures IsSourceSnapshot(report.sourceIPStats, stats.sourceIPStats, uptime)
    ensures report.targetStats == stats.targetStats
    ensures report.systemStats == system
  {
    var totalBandwidth := TotalBandwidth(stats.bytesSent, uptime);
    var sourceIPStats := CopySourceStats(stats.sourceIPStats, uptime);
    report := ReportData(now, TotalStats(stats.bytesSent, stats.packetsSent, totalBandwidth, uptime),
                         sourceIPStats, stats.targetStats, system);
  }

  /**
   * The snapshot does not depend on the order in which sources are visited:
   * one store reading determines exactly one report.
   */
  lemma ReportIsDetermined<T>(a: ReportData<T>, b: ReportData<T>, stats: Stats<T>, uptime: real,
                              now: Instant, system: SystemStats)
    requires IsReportOf(a, stats, uptime, now, system)
    requires IsReportOf(b, stats, uptime, now, system)
    ensures a == b
  {
    forall ip | ip in a.sourceIPStats
      ensures a.sourceIPStats[ip] == b.sourceIPStats[ip]
    {
      assert CopiesSource(a.sourceIPStats[ip], stats.sourceIPStats[ip], uptime);
      assert CopiesSource(b.sourceIPStats[ip], stats.sourceIPStats[ip], uptime);
    }
    assert a.sourceIPStats == b.sourceIPStats;
  }

  /** With no positive uptime every bandwidth in the report is exactly 0. */
  lemma NoUptimeNoBandwidth<T>(report: ReportData<T>, stats: Stats<T>, uptime: real,
                               now: Instant, system: SystemStats)
    requires IsReportOf(report, stats, uptime, now, system)
    requires uptime <= 0.0
    ensures report.totalStats.bandwidthMbps == 0.0
    ensures forall ip :: ip in report.sourceIPStats ==> report.sourceIPStats[ip].bandwidthMbps == 0.0
  {
  }

  /**
   * Sources that sent nothing are still reported, with rate 0, and every
   * other source's rate follows the formula.
   */
  lemma EverySourceReported<T>(report: ReportData<T>, stats: Stats<T>, uptime: real,
                               now: Instant, system: SystemStats, ip: string)
    requires IsReportOf(report, stats, uptime, now, system)
    requires ip in stats.sourceIPStats
    ensures ip in report.sourceIPStats
    ensures stats.sourceIPStats[ip].bytesSent == 0 ==> report.sourceIPStats[ip].bandwidthMbps == 0.0
    ensures var b := stats.sourceIPStats[ip].bytesSent;
            uptime > 0.0 && b > 0 && FitsInt64(b * 8) ==>
              report.sourceIPStats[ip].bandwidthMbps == (b * 8) as real / (uptime * 1000000.0)
  {
  }

  // ---------------------------------------------------------------------
  // One tick

  /**
   * One tick of the reporter: assemble the report from the store, the
   * runtime's statistics and the clock, then serialise, send and log it.
   * `uptime` is the time since `r.startTime` in seconds; `now` stamps the report.
   */
  method GenerateReport<T>(r: Reporter, stats: Stats<T>, uptime: real, now: Instant,
                           cpuCount: int, goroutineCount: int, mem: MemStats,
                           marshalOk: bool, attempt: SendAttempt)
    returns (report: ReportData<T>, outcome: TickOutcome)
    ensures IsReportOf(report, stats, uptime, now, CollectSystemStats(cpuCount, goroutineCount, mem))
    ensures outcome.SendAttempted? <==> marshalOk && r.reportURL != ""
    ensures outcome.MarshalFailed? <==> !marshalOk
    ensures outcome.SendAttempted? ==> outcome.outcome == ClassifySend(attempt)
  {
    var system := CollectSystemStats(cpuCount, goroutineCount, mem);
    report := BuildReport(stats, uptime, now, system);
    outcome := Dispatch(marshalOk, r.reportURL, attempt);
  }
}

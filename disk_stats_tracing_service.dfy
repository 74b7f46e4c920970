/** DiskStatsTracingService: one scheduler, created with the service, runs
    the per-disk sampler at a fixed rate. */
module DiskStatsTracingService {
  import opened Common
  import opened Meters
  import opened DiskSampling

  /** SCHEDULE_PERIOD, in seconds: the initial delay and the period. */
  const SchedulePeriod: nat := 5

  class DiskStatsTracingService {
    var metricsPerDisk: DiskObservation
    var oldMetricsPerDisk: DiskObservation
    var kvTimestamp: int
    var oldkvTimestamp: int
    /** The periods of the jobs handed to the scheduler, and whether it was
        shut down. */
    var scheduledPeriods: seq<nat>
    var schedulerShutDown: bool

    /** Empty maps, both timestamps 0, and exactly one fixed-rate job. */
    constructor ()
      ensures metricsPerDisk == map[] && oldMetricsPerDisk == map[]
      ensures kvTimestamp == 0 && oldkvTimestamp == 0
      ensures scheduledPeriods == [SchedulePeriod] && !schedulerShutDown
    {
      metricsPerDisk := map[];
      oldMetricsPerDisk := map[];
      kvTimestamp := 0;
      oldkvTimestamp := 0;
      scheduledPeriods := [SchedulePeriod];
      schedulerShutDown := false;
    }

    method ShutDown()
      modifies this
      ensures schedulerShutDown && scheduledPeriods == old(scheduledPeriods)
      ensures metricsPerDisk == old(metricsPerDisk) && oldMetricsPerDisk == old(oldMetricsPerDisk)
      ensures kvTimestamp == old(kvTimestamp) && oldkvTimestamp == old(oldkvTimestamp)
    {
      schedulerShutDown := true;
    }

    /** Scheduled.run: rotate the readings and the timestamps, then record
        every disk of a non-null calculator result. */
    method Tick(now: int, observed: DiskObservation, calculator: DiskCalculator, baggage: Entries, sink: Sink)
      modifies this, sink
      ensures oldMetricsPerDisk == old(metricsPerDisk) && metricsPerDisk == observed
      ensures oldkvTimestamp == old(kvTimestamp) && kvTimestamp == now
      ensures scheduledPeriods == old(scheduledPeriods) && schedulerShutDown == old(schedulerShutDown)
      ensures sink.log == old(sink.log) + TickEvents(now, old(kvTimestamp), observed, old(metricsPerDisk), calculator, baggage)
    {
      oldMetricsPerDisk := metricsPerDisk;
      metricsPerDisk := observed;
      oldkvTimestamp := kvTimestamp;
      kvTimestamp := now;
      var diskMetrics := calculator(kvTimestamp, oldkvTimestamp, metricsPerDisk, oldMetricsPerDisk);
      if diskMetrics.Some? {
        RecordDiskMetrics(sink, diskMetrics.value, BaggageAttributes(baggage));
      }
    }
  }
}

/** NetworkTracingService: a fixed-rate job that keeps the last two network
    readings and records the inbound/outbound figures between them. */
module NetworkTracingService {
  import opened Common
  import opened Meters
  import opened NetworkRecording

  /** The ipv4, ipv6 and device maps the service holds (never null). */
  datatype Readings = Readings(ipv4: Counters, ipv6: Counters, device: Counters)

  function AsObservation(r: Readings): NetObservation {
    NetObservation(Some(r.ipv4), Some(r.ipv6), Some(r.device))
  }

  const NoReadings: Readings := Readings(map[], map[], map[])

  /** SCHEDULE_PERIOD, in seconds: the initial delay and the period. */
  const SchedulePeriod: nat := 5

  /** The tick computes only when none of the previous maps is empty. */
  predicate TickGate(previous: Readings) {
    previous.ipv6 != map[] && previous.ipv4 != map[] && previous.device != map[]
  }

  /** What one run of the job records, after the rotation: nothing unless
      the gate holds; otherwise both calculators run on (new timestamp, old
      timestamp, current maps, previous maps), each non-null summary is
      recorded and the meters are reset once. */
  function TickRecords(kvTimestamp: int, oldkvTimestamp: int, current: Readings, previous: Readings,
                       calculators: NetCalculators, baggage: Entries): (events: seq<Event>)
    ensures !TickGate(previous) ==> events == []
    ensures ResetCount(events, NetworkMeters) == if TickGate(previous) then 1 else 0
    ensures TickGate(previous) ==>
      var inbound := calculators.inbound(kvTimestamp, oldkvTimestamp, AsObservation(current), AsObservation(previous));
      var outbound := calculators.outbound(kvTimestamp, oldkvTimestamp, AsObservation(current), AsObservation(previous));
      && |events| == 1 + (if inbound.Some? then 5 else 0) + (if outbound.Some? then 5 else 0)
      && Recorded(events) == DirectionMeters(inbound, outbound)
      && events[..|events| - 1] == SummaryRecords(inbound, outbound, BaggageAttributes(baggage))
      && events[|events| - 1] == Reset(NetworkMeters)
  {
    if TickGate(previous) then
      var now := AsObservation(current);
      var before := AsObservation(previous);
      RecordAndReset(calculators.inbound(kvTimestamp, oldkvTimestamp, now, before),
                     calculators.outbound(kvTimestamp, oldkvTimestamp, now, before),
                     BaggageAttributes(baggage))
    else []
  }

  /** The first run after construction finds the previous maps empty and
      records nothing, whatever it observes. */
  lemma FirstTickRecordsNothing(now: int, observed: Readings, calculators: NetCalculators, baggage: Entries)
    ensures TickRecords(now, 0, observed, NoReadings, calculators, baggage) == []
  {
  }

  /** The second run computes exactly when every map of the first
      observation is non-empty. */
  lemma SecondTickGate(first: int, second: int, observed1: Readings, observed2: Readings,
                       calculators: NetCalculators, baggage: Entries)
    ensures var events := TickRecords(second, first, observed2, observed1, calculators, baggage);
      ResetCount(events, NetworkMeters) == 1 <==>
        observed1.ipv4 != map[] && observed1.ipv6 != map[] && observed1.device != map[]
  {
  }

  class NetworkTracingService {
    var oldIpv4Metrics: Counters
    var oldIpv6Metrics: Counters
    var oldDeviceNetworkStatsMetrics: Counters
    var ipv4Metrics: Counters
    var ipv6Metrics: Counters
    var deviceNetworkStatsMetrics: Counters
    var kvTimestamp: int
    var oldkvTimestamp: int
    /** The periods of the jobs handed to the scheduler, and whether it was
        shut down. */
    var scheduledPeriods: seq<nat>
    var schedulerShutDown: bool

    function Current(): Readings
      reads this
    {
      Readings(ipv4Metrics, ipv6Metrics, deviceNetworkStatsMetrics)
    }

    function Previous(): Readings
      reads this
    {
      Readings(oldIpv4Metrics, oldIpv6Metrics, oldDeviceNetworkStatsMetrics)
    }

    /** Six empty maps, both timestamps 0, and one fixed-rate job. */
    constructor ()
      ensures Current() == NoReadings && Previous() == NoReadings
      ensures kvTimestamp == 0 && oldkvTimestamp == 0
      ensures scheduledPeriods == [SchedulePeriod] && !schedulerShutDown
    {
      oldIpv4Metrics := map[];
      oldIpv6Metrics := map[];
      oldDeviceNetworkStatsMetrics := map[];
      ipv4Metrics := map[];
      ipv6Metrics := map[];
      deviceNetworkStatsMetrics := map[];
      kvTimestamp := 0;
      oldkvTimestamp := 0;
      scheduledPeriods := [SchedulePeriod];
      schedulerShutDown := false;
    }

    method ShutDown()
      modifies this
      ensures schedulerShutDown
      ensures Current() == old(Current()) && Previous() == old(Previous())
      ensures kvTimestamp == old(kvTimestamp) && oldkvTimestamp == old(oldkvTimestamp)
      ensures scheduledPeriods == old(scheduledPeriods)
    {
      schedulerShutDown := true;
    }

    /** The rotation: every previous map takes the current one's contents,
        every current map the fresh observation's, and the timestamps shift. */
    method Rotate(now: int, observed: Readings)
      modifies this
      ensures Previous() == old(Current()) && Current() == observed
      ensures oldkvTimestamp == old(kvTimestamp) && kvTimestamp == now
      ensures scheduledPeriods == old(scheduledPeriods) && schedulerShutDown == old(schedulerShutDown)
    {
      oldIpv4Metrics := ipv4Metrics;
      ipv4Metrics := observed.ipv4;
      oldIpv6Metrics := ipv6Metrics;
      ipv6Metrics := observed.ipv6;
      oldDeviceNetworkStatsMetrics := deviceNetworkStatsMetrics;
      deviceNetworkStatsMetrics := observed.device;
      oldkvTimestamp := kvTimestamp;
      kvTimestamp := now;
    }

    /** Scheduled.run: the rotation, then the gated recording on the rotated
        fields. */
    method Tick(now: int, observed: Readings, calculators: NetCalculators, baggage: Entries, sink: Sink)
      modifies this, sink
      ensures Previous() == old(Current()) && Current() == observed
      ensures oldkvTimestamp == old(kvTimestamp) && kvTimestamp == now
      ensures scheduledPeriods == old(scheduledPeriods) && schedulerShutDown == old(schedulerShutDown)
      ensures sink.log == old(sink.log) + TickRecords(now, old(kvTimestamp), observed, old(Current()), calculators, baggage)
    {
      Rotate(now, observed);
      var events := TickRecords(kvTimestamp, oldkvTimestamp, Current(), Previous(), calculators, baggage);
      sink.log := sink.log + events;
    }
  }
}

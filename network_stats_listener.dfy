/** NetworkStatsEventListener: host network figures between an onStart and
    its matching onEnd on one thread. */
module NetworkStatsListener {
  import opened Common
  import opened Meters
  import opened NetworkRecording
  import ThreadStacks

  /** A SupportedMeasurement: its start time and the three readings taken
      at construction (any of them may be null). */
  datatype Measurement = Measurement(threadId: int, startTime: int, start: NetObservation)

  /** None of the three readings is null. */
  predicate AllPresent(o: NetObservation) {
    o.ipv4.Some? && o.ipv6.Some? && o.device.Some?
  }

  /** SupportedMeasurement.endRecording with the end readings taken now:
      nothing at all unless all three are non-null; otherwise both
      calculators run on (endTime, startTime, end readings, start readings),
      each non-null summary is recorded and the meters are reset once. */
  function EndRecording(m: Measurement, endTime: int, end: NetObservation,
                        calculators: NetCalculators, baggage: Entries): (events: seq<Event>)
    ensures !AllPresent(end) ==> events == []
    ensures ResetCount(events, NetworkMeters) == if AllPresent(end) then 1 else 0
    ensures AllPresent(end) ==>
      var inbound := calculators.inbound(endTime, m.startTime, end, m.start);
      var outbound := calculators.outbound(endTime, m.startTime, end, m.start);
      && |events| == 1 + (if inbound.Some? then 5 else 0) + (if outbound.Some? then 5 else 0)
      && Recorded(events) == DirectionMeters(inbound, outbound)
      && events[..|events| - 1] == SummaryRecords(inbound, outbound, BaggageAttributes(baggage))
      && events[|events| - 1] == Reset(NetworkMeters)
  {
    if AllPresent(end) then
      RecordAndReset(calculators.inbound(endTime, m.startTime, end, m.start),
                     calculators.outbound(endTime, m.startTime, end, m.start),
                     BaggageAttributes(baggage))
    else []
  }

  class NetworkStatsEventListener {
    var networkStats: ThreadStacks.Registry<Measurement>

    constructor ()
      ensures networkStats == map[]
    {
      networkStats := map[];
    }

    /** Pushes a measurement holding the readings taken now. */
    method OnStart(operationName: string, eventName: string, threadId: int, now: int,
                   observed: NetObservation)
      modifies this
      ensures networkStats == ThreadStacks.Push(old(networkStats), threadId, Measurement(threadId, now, observed))
    {
      var stack := if threadId in networkStats then networkStats[threadId] else [];
      networkStats := networkStats[threadId := stack + [Measurement(threadId, now, observed)]];
    }

    /** Records from the top measurement of the thread's stack, then pops
        it; with no stack or an empty one it throws and changes nothing. */
    method OnEnd(operationName: string, eventName: string, threadId: int, now: int,
                 end: NetObservation, calculators: NetCalculators, baggage: Entries, sink: Sink)
      returns (thrown: Option<Failure>)
      modifies this, sink
      ensures match ThreadStacks.End(old(networkStats), threadId)
        case Err(f) =>
          thrown == Some(f) && networkStats == old(networkStats) && sink.log == old(sink.log)
        case Ok(popped) =>
          thrown == None && networkStats == popped.1
          && sink.log == old(sink.log) + EndRecording(popped.0, now, end, calculators, baggage)
    {
      var peeked := ThreadStacks.Top(networkStats, threadId);
      if peeked.Err? {
        return Some(peeked.failure);
      }
      sink.log := sink.log + EndRecording(peeked.value, now, end, calculators, baggage);
      networkStats := ThreadStacks.Pop(networkStats, threadId);
      thrown := None;
    }

    /** The listener reacts to every event. */
    function IsApplicable(operationName: string, eventName: string): (r: bool)
      ensures r
    {
      true
    }
  }
}

/** What NetworkStatsEventListener and NetworkTracingService record from a
    pair of network readings: the inbound and outbound interface summaries
    produced by NetworkMetricsCalculator, then one reset of the network
    meters. */
module NetworkRecording {
  import opened Common
  import opened Meters

  /** A Map<String, Long> of network counters. */
  type Counters = map<string, int>

  /** The ipv4, ipv6 and device observers read at one instant; None is a
      null map. */
  datatype NetObservation = NetObservation(ipv4: Option<Counters>, ipv6: Option<Counters>, device: Option<Counters>)

  /** NetInterfaceSummary. */
  datatype NetSummary = NetSummary(packetRate4: real, dropRate4: real, packetRate6: real, dropRate6: real, bps: real)

  /** calculateInNetworkMetrics / calculateOutNetworkMetrics, called with
      (endTime, startTime, end readings, start readings); they may return
      null. */
  type NetCalculator = (int, int, NetObservation, NetObservation) -> Option<NetSummary>

  datatype NetCalculators = NetCalculators(inbound: NetCalculator, outbound: NetCalculator)

  const InMeters: set<Meter> :=
    {Network(InPacketRate4), Network(InDropRate4), Network(InPacketRate6), Network(InDropRate6), Network(InBps)}

  const OutMeters: set<Meter> :=
    {Network(OutPacketRate4), Network(OutDropRate4), Network(OutPacketRate6), Network(OutDropRate6), Network(OutBps)}

  /** The five inbound recordings. As the code is written, the v6 drop-rate
      meter receives the v6 packet rate. */
  function InRecords(s: NetSummary, attrs: Entries): (events: seq<Event>)
    ensures Recorded(events) == InMeters && |events| == 5
    ensures RecordsWith(events, attrs)
    ensures Record(Network(InDropRate4), s.dropRate4, attrs) in events
    ensures forall e :: e in events && e.meter == Network(InDropRate6) ==> e.value == s.packetRate6
  {
    [ Record(Network(InPacketRate4), s.packetRate4, attrs),
      Record(Network(InDropRate4), s.dropRate4, attrs),
      Record(Network(InPacketRate6), s.packetRate6, attrs),
      Record(Network(InDropRate6), s.packetRate6, attrs),
      Record(Network(InBps), s.bps, attrs) ]
  }

  /** The five outbound recordings, with the same v6 drop-rate choice. */
  function OutRecords(s: NetSummary, attrs: Entries): (events: seq<Event>)
    ensures Recorded(events) == OutMeters && |events| == 5
    ensures RecordsWith(events, attrs)
    ensures Record(Network(OutDropRate4), s.dropRate4, attrs) in events
    ensures forall e :: e in events && e.meter == Network(OutDropRate6) ==> e.value == s.packetRate6
  {
    [ Record(Network(OutPacketRate4), s.packetRate4, attrs),
      Record(Network(OutDropRate4), s.dropRate4, attrs),
      Record(Network(OutPacketRate6), s.packetRate6, attrs),
      Record(Network(OutDropRate6), s.packetRate6, attrs),
      Record(Network(OutBps), s.bps, attrs) ]
  }

  /** The meters of the directions whose summary is not null. */
  function DirectionMeters(inbound: Option<NetSummary>, outbound: Option<NetSummary>): set<Meter> {
    (if inbound.Some? then InMeters else {}) + (if outbound.Some? then OutMeters else {})
  }

  /** Each direction is recorded only when its summary is not null. */
  function SummaryRecords(inbound: Option<NetSummary>, outbound: Option<NetSummary>, attrs: Entries)
    : (events: seq<Event>)
    ensures |events| == (if inbound.Some? then 5 else 0) + (if outbound.Some? then 5 else 0)
    ensures Recorded(events) == DirectionMeters(inbound, outbound)
    ensures RecordsWith(events, attrs)
    ensures inbound.Some? ==> events[..5] == InRecords(inbound.value, attrs)
  {
    var ins := match inbound case None => [] case Some(s) => InRecords(s, attrs);
    var outs := match outbound case None => [] case Some(s) => OutRecords(s, attrs);
    RecordedAppend(ins, outs);
    RecordsWithAppend(ins, outs, attrs);
    assert (ins + outs)[..|ins|] == ins;
    ins + outs
  }

  /** Both summaries recorded, then the meters reset once. */
  function RecordAndReset(inbound: Option<NetSummary>, outbound: Option<NetSummary>, attrs: Entries)
    : (events: seq<Event>)
    ensures |events| == 1 + (if inbound.Some? then 5 else 0) + (if outbound.Some? then 5 else 0)
    ensures Recorded(events) == DirectionMeters(inbound, outbound)
    ensures events[..|events| - 1] == SummaryRecords(inbound, outbound, attrs)
    ensures events[|events| - 1] == Reset(NetworkMeters)
    ensures ResetCount(events, NetworkMeters) == 1
  {
    var records := SummaryRecords(inbound, outbound, attrs);
    var events := records + [Reset(NetworkMeters)];
    assert events[..|events| - 1] == records;
    RecordedThenReset(records, NetworkMeters);
    ResetOnceAfter(records, attrs, NetworkMeters);
    events
  }
}

/** The metric sink. Each histogram or counter of the meters classes is one
    constructor here (its exported name is not modelled); a recording appends
    a Record to the sink's log, and a class's reset() appends one Reset. */
module Meters {
  import opened Common

  /** TraceOperationMeters. */
  datatype TraceMeter =
    | CpuTime | CpuUtilization | HeapAllocatedBytes
    | BlockedCount | WaitedCount | BlockedTime | WaitedTime
    | ElapsedTime

  /** DiskTraceOperationMeters. */
  datatype DiskTraceMeter =
    | ReadThroughputBps | WriteThroughputBps | TotalThroughputBps
    | ReadSyscallRate | WriteSyscallRate | TotalSyscallRate
    | PageCacheReadThroughputBps | PageCacheWriteThroughputBps | PageCacheTotalThroughputBps
    | CpuUtilizationPA | PagingMajFltRate | PagingMinFltRate | PagingRss
    | SchedRunTime | SchedWaitTime | SchedCtxRate
    | HeapAllocRate | ThreadBlockedCount | ThreadBlockedTime | ThreadWaitedCount | ThreadWaitedTime

  /** NetworkOperationMeters. */
  datatype NetworkMeter =
    | InPacketRate4 | InDropRate4 | InPacketRate6 | InDropRate6 | InBps
    | OutPacketRate4 | OutDropRate4 | OutPacketRate6 | OutDropRate6 | OutBps

  /** DiskStatsOperationMeters. */
  datatype DiskStatsMeter = Utilization | Await | ServiceRate

  datatype Meter =
    | Trace(trace: TraceMeter)
    | DiskTrace(diskTrace: DiskTraceMeter)
    | Network(network: NetworkMeter)
    | DiskStats(diskStats: DiskStatsMeter)

  /** The meters classes that have a reset(). */
  datatype MeterGroup = DiskTraceMeters | NetworkMeters | DiskStatsMeters

  datatype Event =
    | Record(meter: Meter, value: real, attributes: Entries)
    | Reset(group: MeterGroup)

  /** The meters a log records to. */
  function Recorded(log: seq<Event>): set<Meter> {
    set e | e in log && e.Record? :: e.meter
  }

  lemma RecordedAppend(a: seq<Event>, b: seq<Event>)
    ensures Recorded(a + b) == Recorded(a) + Recorded(b)
  {
    assert forall e :: e in a + b <==> e in a || e in b;
  }

  /** Two recordings record to their two meters. */
  lemma RecordedPair(a: Event, b: Event)
    requires a.Record? && b.Record?
    ensures Recorded([a, b]) == {a.meter, b.meter}
  {
    assert forall e :: e in [a, b] <==> e == a || e == b;
  }

  /** Three recordings record to their three meters. */
  lemma RecordedTriple(a: Event, b: Event, c: Event)
    requires a.Record? && b.Record? && c.Record?
    ensures Recorded([a, b, c]) == {a.meter, b.meter, c.meter}
  {
    assert forall e :: e in [a, b, c] <==> e == a || e == b || e == c;
  }

  /** A reset adds no meter to the recorded ones. */
  lemma RecordedThenReset(log: seq<Event>, g: MeterGroup)
    ensures Recorded(log + [Reset(g)]) == Recorded(log)
  {
    RecordedAppend(log, [Reset(g)]);
    assert Recorded([Reset(g)]) == {};
  }

  /** How many times a log resets a group. */
  function ResetCount(log: seq<Event>, g: MeterGroup): nat {
    if log == [] then 0
    else (if log[0] == Reset(g) then 1 else 0) + ResetCount(log[1..], g)
  }

  lemma {:induction false} ResetCountAppend(a: seq<Event>, b: seq<Event>, g: MeterGroup)
    ensures ResetCount(a + b, g) == ResetCount(a, g) + ResetCount(b, g)
  {
    if a == [] {
      assert a + b == b;
    } else {
      assert (a + b)[1..] == a[1..] + b;
      ResetCountAppend(a[1..], b, g);
    }
  }

  /** Every event of the log is a recording carrying the given attributes. */
  predicate RecordsWith(log: seq<Event>, attrs: Entries) {
    forall i :: 0 <= i < |log| ==> log[i].Record? && log[i].attributes == attrs
  }

  lemma RecordsWithAppend(a: seq<Event>, b: seq<Event>, attrs: Entries)
    requires RecordsWith(a, attrs) && RecordsWith(b, attrs)
    ensures RecordsWith(a + b, attrs)
  {
    assert forall i :: |a| <= i < |a + b| ==> (a + b)[i] == b[i - |a|];
  }

  lemma {:induction false} NoResets(log: seq<Event>, attrs: Entries, g: MeterGroup)
    requires RecordsWith(log, attrs)
    ensures ResetCount(log, g) == 0
  {
    if log != [] {
      assert log[0].Record?;
      NoResets(log[1..], attrs, g);
    }
  }

  /** A run of recordings followed by one reset resets the group once. */
  lemma ResetOnceAfter(records: seq<Event>, attrs: Entries, g: MeterGroup)
    requires RecordsWith(records, attrs)
    ensures ResetCount(records + [Reset(g)], g) == 1
  {
    NoResets(records, attrs, g);
    ResetCountAppend(records, [Reset(g)], g);
  }

  /** The metric backend: everything recorded so far, in order. */
  class Sink {
    var log: seq<Event>

    constructor ()
      ensures log == []
    {
      log := [];
    }
  }
}

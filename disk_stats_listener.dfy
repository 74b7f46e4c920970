/** DiskStatsEventListener: per-thread CPU/paging, disk IO, scheduler and
    thread-state figures from the performance-analyzer observers, between an
    onStart and its matching onEnd. */
module DiskStatsListener {
  import opened Common
  import opened Meters
  import JavaText
  import ThreadStacks

  /** One observer reading (cpu, io or sched) of a native thread; an empty
      map means the observer had nothing for it. */
  type Snapshot = map<string, real>

  /** ThreadList.ThreadState: the fields endRecording reads. */
  datatype ThreadState = ThreadState(
    threadName: string, heapAllocRate: real,
    blockedCount: int, blockedTime: real, waitedCount: int, waitedTime: real)

  /** The three observers read at one instant, for the native thread id
      given (None stands for the null id of a thread without one). */
  datatype Observation = Observation(cpu: Snapshot, io: Snapshot, sched: Snapshot)

  type Observer = Option<string> -> Observation

  /** ThreadCPUMetricsGenerator's four figures. */
  datatype CpuPaging = CpuPaging(cpuUtilization: real, majorFault: real, minorFault: real, rss: real)

  /** ThreadDiskIO.IOMetrics. */
  datatype IOMetrics = IOMetrics(
    readThroughputBps: real, writeThroughputBps: real, totalThroughputBps: real,
    readSyscallRate: real, writeSyscallRate: real, totalSyscallRate: real,
    pageCacheReadThroughputBps: real, pageCacheWriteThroughputBps: real, pageCacheTotalThroughputBps: real)

  /** The calculators endRecording calls with (end, start, startTime,
      endTime); the start snapshot is None when the constructor left it null.
      calculateIOMetrics may return null. */
  datatype Calculators = Calculators(
    cpu: (Snapshot, Option<Snapshot>, int, int) -> CpuPaging,
    io: (Snapshot, Option<Snapshot>, int, int) -> Option<IOMetrics>)

  /** A SupportedMeasurement as its public constructor leaves it. */
  datatype Measurement = Measurement(
    threadId: int, startTime: int,
    nativeThreadId: Option<string>, threadState: Option<ThreadState>,
    cpuStart: Option<Snapshot>, ioStart: Option<Snapshot>, schedStart: Option<Snapshot>)

  /** The native id lookup yields -1 for a thread it does not know. */
  const UnknownNativeId: int := -1

  /** The attribute key of OSMetricsCollector.MetaDataFields.threadName. */
  const ThreadNameKey: string := "threadName"

  /** The SupportedMeasurement(t, true) constructor. firstNativeId is the
      first lookup, refreshedNativeId the lookup after the native id map was
      refreshed (consulted only when the first one failed), threadState what
      ThreadList reports for the thread. */
  function NewMeasurement(threadId: int, now: int, firstNativeId: int, refreshedNativeId: int,
                          threadState: Option<ThreadState>, observe: Observer): (m: Measurement)
    ensures m.threadId == threadId && m.startTime == now
    ensures m.nativeThreadId.None? <==> firstNativeId == UnknownNativeId && refreshedNativeId == UnknownNativeId
    ensures m.nativeThreadId.None? ==>
      m.threadState.None? && m.cpuStart.None? && m.ioStart.None? && m.schedStart.None?
    ensures m.nativeThreadId.Some? ==>
      var id := if firstNativeId != UnknownNativeId then firstNativeId else refreshedNativeId;
      m.nativeThreadId == Some(JavaText.IntToString(id)) && m.threadState == threadState
      && m.cpuStart == Some(observe(m.nativeThreadId).cpu)
      && m.ioStart == Some(observe(m.nativeThreadId).io)
      && m.schedStart == Some(observe(m.nativeThreadId).sched)
  {
    var id := if firstNativeId != UnknownNativeId then firstNativeId else refreshedNativeId;
    if id == UnknownNativeId then
      Measurement(threadId, now, None, None, None, None, None)
    else
      var nativeId := Some(JavaText.IntToString(id));
      var observed := observe(nativeId);
      Measurement(threadId, now, nativeId, threadState,
                  Some(observed.cpu), Some(observed.io), Some(observed.sched))
  }

  /** The attributes of every recording: the baggage, plus the thread name
      when the thread state is known. */
  function RecordingAttributes(m: Measurement, baggage: Entries): (attrs: Entries)
    ensures m.threadState.None? ==> attrs == BaggageAttributes(baggage)
    ensures m.threadState.Some? ==> Lookup(attrs, ThreadNameKey) == Some(m.threadState.value.threadName)
    ensures forall k :: k != ThreadNameKey || m.threadState.None? ==> Lookup(attrs, k) == Lookup(BaggageAttributes(baggage), k)
  {
    var fromBaggage := BaggageAttributes(baggage);
    match m.threadState
    case None => fromBaggage
    case Some(state) => Put(fromBaggage, ThreadNameKey, state.threadName)
  }

  const CpuMeters: set<Meter> :=
    {DiskTrace(CpuUtilizationPA), DiskTrace(PagingMajFltRate), DiskTrace(PagingMinFltRate), DiskTrace(PagingRss)}

  const IoMeters: set<Meter> :=
    {DiskTrace(ReadThroughputBps), DiskTrace(WriteThroughputBps), DiskTrace(TotalThroughputBps)}
    + {DiskTrace(ReadSyscallRate), DiskTrace(WriteSyscallRate), DiskTrace(TotalSyscallRate)}
    + {DiskTrace(PageCacheReadThroughputBps), DiskTrace(PageCacheWriteThroughputBps), DiskTrace(PageCacheTotalThroughputBps)}

  const SchedMeters: set<Meter> :=
    {DiskTrace(SchedRunTime), DiskTrace(SchedWaitTime), DiskTrace(SchedCtxRate)}

  const ThreadMeters: set<Meter> :=
    {DiskTrace(HeapAllocRate), DiskTrace(ThreadBlockedCount), DiskTrace(ThreadBlockedTime),
     DiskTrace(ThreadWaitedCount), DiskTrace(ThreadWaitedTime)}

  /** The CPU/paging domain: four recordings when the end cpu reading is
      not empty. */
  function CpuRecords(m: Measurement, endTime: int, cpuEnd: Snapshot, calculators: Calculators, attrs: Entries)
    : (events: seq<Event>)
    ensures Recorded(events) == if cpuEnd == map[] then {} else CpuMeters
    ensures RecordsWith(events, attrs)
    ensures |events| == if cpuEnd == map[] then 0 else 4
  {
    if cpuEnd == map[] then []
    else
      var f := calculators.cpu(cpuEnd, m.cpuStart, m.startTime, endTime);
      [ Record(DiskTrace(CpuUtilizationPA), f.cpuUtilization, attrs),
        Record(DiskTrace(PagingMajFltRate), f.majorFault, attrs),
        Record(DiskTrace(PagingMinFltRate), f.minorFault, attrs),
        Record(DiskTrace(PagingRss), f.rss, attrs) ]
  }

  /** The IO domain: nine recordings when the end io reading is not empty
      and the calculator returns metrics. */
  function IoRecords(m: Measurement, endTime: int, ioEnd: Snapshot, calculators: Calculators, attrs: Entries)
    : (events: seq<Event>)
    ensures var recorded := ioEnd != map[] && calculators.io(ioEnd, m.ioStart, m.startTime, endTime).Some?;
      Recorded(events) == (if recorded then IoMeters else {}) && |events| == if recorded then 9 else 0
    ensures RecordsWith(events, attrs)
  {
    if ioEnd == map[] then []
    else match calculators.io(ioEnd, m.ioStart, m.startTime, endTime)
      case None => []
      case Some(io) => IoMetricRecords(io, attrs)
  }

  function IoMetricRecords(io: IOMetrics, attrs: Entries): (events: seq<Event>)
    ensures Recorded(events) == IoMeters && |events| == 9
    ensures RecordsWith(events, attrs)
  {
    var throughput := RecordTriple(ReadThroughputBps, io.readThroughputBps, WriteThroughputBps, io.writeThroughputBps,
                                   TotalThroughputBps, io.totalThroughputBps, attrs);
    var syscalls := RecordTriple(ReadSyscallRate, io.readSyscallRate, WriteSyscallRate, io.writeSyscallRate,
                                 TotalSyscallRate, io.totalSyscallRate, attrs);
    var pageCache := RecordTriple(PageCacheReadThroughputBps, io.pageCacheReadThroughputBps,
                                  PageCacheWriteThroughputBps, io.pageCacheWriteThroughputBps,
                                  PageCacheTotalThroughputBps, io.pageCacheTotalThroughputBps, attrs);
    RecordedAppend(throughput, syscalls);
    RecordedAppend(throughput + syscalls, pageCache);
    RecordsWithAppend(throughput, syscalls, attrs);
    RecordsWithAppend(throughput + syscalls, pageCache, attrs);
    throughput + syscalls + pageCache
  }

  /** Three disk recordings, in order, under the same attributes. */
  function RecordTriple(a: DiskTraceMeter, x: real, b: DiskTraceMeter, y: real, c: DiskTraceMeter, z: real, attrs: Entries)
    : (events: seq<Event>)
    ensures Recorded(events) == {DiskTrace(a), DiskTrace(b), DiskTrace(c)}
    ensures RecordsWith(events, attrs)
  {
    var events := [Record(DiskTrace(a), x, attrs), Record(DiskTrace(b), y, attrs), Record(DiskTrace(c), z, attrs)];
    RecordedTriple(events[0], events[1], events[2]);
    events
  }

  /** The scheduler domain: three zero recordings (the figures are not
      computed yet) when the end sched reading is not empty. */
  function SchedRecords(schedEnd: Snapshot, attrs: Entries): (events: seq<Event>)
    ensures Recorded(events) == if schedEnd == map[] then {} else SchedMeters
    ensures RecordsWith(events, attrs)
    ensures |events| == if schedEnd == map[] then 0 else 3
    ensures forall e :: e in events ==> e.Record? && e.value == 0.0
  {
    if schedEnd == map[] then []
    else
      [ Record(DiskTrace(SchedRunTime), 0.0, attrs),
        Record(DiskTrace(SchedWaitTime), 0.0, attrs),
        Record(DiskTrace(SchedCtxRate), 0.0, attrs) ]
  }

  /** The thread-state domain: five recordings of the state captured at
      start, when there is one. */
  function ThreadRecords(m: Measurement, attrs: Entries): (events: seq<Event>)
    ensures Recorded(events) == if m.threadState.None? then {} else ThreadMeters
    ensures RecordsWith(events, attrs)
    ensures |events| == if m.threadState.None? then 0 else 5
  {
    match m.threadState
    case None => []
    case Some(state) =>
      [ Record(DiskTrace(HeapAllocRate), state.heapAllocRate, attrs),
        Record(DiskTrace(ThreadBlockedCount), state.blockedCount as real, attrs),
        Record(DiskTrace(ThreadBlockedTime), state.blockedTime, attrs),
        Record(DiskTrace(ThreadWaitedCount), state.waitedCount as real, attrs),
        Record(DiskTrace(ThreadWaitedTime), state.waitedTime, attrs) ]
  }

  /** SupportedMeasurement.endRecording: the four domains in order, each
      gated on its own end reading, then one reset of the disk meters. The
      end readings are taken for the measurement's native id, null included. */
  function EndRecording(m: Measurement, endTime: int, observe: Observer, calculators: Calculators,
                        baggage: Entries): (events: seq<Event>)
    ensures |events| > 0 && events[|events| - 1] == Reset(DiskTraceMeters)
    ensures RecordsWith(events[..|events| - 1], RecordingAttributes(m, baggage))
    ensures ResetCount(events, DiskTraceMeters) == 1
    ensures Recorded(events) == DomainMeters(m, endTime, observe(m.nativeThreadId), calculators)
  {
    var attrs := RecordingAttributes(m, baggage);
    var end := observe(m.nativeThreadId);
    var records := DomainRecords(m, endTime, end, calculators, attrs);
    var events := records + [Reset(DiskTraceMeters)];
    assert events[..|events| - 1] == records;
    RecordedThenReset(records, DiskTraceMeters);
    ResetOnceAfter(records, attrs, DiskTraceMeters);
    events
  }

  /** The meters of the domains whose gate holds: cpu when the end cpu
      reading is not empty, io when the end io reading is not empty and the
      calculator returns metrics, sched when the end sched reading is not
      empty, thread state when the start captured one. */
  function DomainMeters(m: Measurement, endTime: int, end: Observation, calculators: Calculators): set<Meter> {
         (if end.cpu == map[] then {} else CpuMeters)
       + (if end.io != map[] && calculators.io(end.io, m.ioStart, m.startTime, endTime).Some? then IoMeters else {})
       + (if end.sched == map[] then {} else SchedMeters)
       + (if m.threadState.None? then {} else ThreadMeters)
  }

  /** The recordings of the four domains, in order. */
  function DomainRecords(m: Measurement, endTime: int, end: Observation, calculators: Calculators,
                         attrs: Entries): (events: seq<Event>)
    ensures RecordsWith(events, attrs)
    ensures Recorded(events) == DomainMeters(m, endTime, end, calculators)
  {
    var c := CpuRecords(m, endTime, end.cpu, calculators, attrs);
    var i := IoRecords(m, endTime, end.io, calculators, attrs);
    var s := SchedRecords(end.sched, attrs);
    var t := ThreadRecords(m, attrs);
    RecordedAppend(c, i);
    RecordedAppend(c + i, s);
    RecordedAppend(c + i + s, t);
    RecordsWithAppend(c, i, attrs);
    RecordsWithAppend(c + i, s, attrs);
    RecordsWithAppend(c + i + s, t, attrs);
    c + i + s + t
  }

  lemma DomainsDisjoint()
    ensures CpuMeters !! ThreadMeters && IoMeters !! ThreadMeters && SchedMeters !! ThreadMeters
  {
  }

  /** A thread whose native id was never found gets no thread-state
      recordings and no threadName attribute. */
  lemma UnknownThreadHasNoThreadState(threadId: int, now: int, threadState: Option<ThreadState>,
                                      observe: Observer, endTime: int, calculators: Calculators, baggage: Entries)
    ensures var m := NewMeasurement(threadId, now, UnknownNativeId, UnknownNativeId, threadState, observe);
      && Recorded(EndRecording(m, endTime, observe, calculators, baggage)) !! ThreadMeters
      && RecordingAttributes(m, baggage) == BaggageAttributes(baggage)
  {
    var m := NewMeasurement(threadId, now, UnknownNativeId, UnknownNativeId, threadState, observe);
    assert m.threadState.None?;
    DomainsDisjoint();
  }

  class DiskStatsEventListener {
    var threadDiskIOUsage: ThreadStacks.Registry<Measurement>

    constructor ()
      ensures threadDiskIOUsage == map[]
    {
      threadDiskIOUsage := map[];
    }

    /** Pushes a new measurement onto the thread's stack. */
    method OnStart(operationName: string, eventName: string, threadId: int, now: int,
                   firstNativeId: int, refreshedNativeId: int, threadState: Option<ThreadState>,
                   observe: Observer)
      modifies this
      ensures threadDiskIOUsage == ThreadStacks.Push(old(threadDiskIOUsage), threadId,
        NewMeasurement(threadId, now, firstNativeId, refreshedNativeId, threadState, observe))
    {
      var m := NewMeasurement(threadId, now, firstNativeId, refreshedNativeId, threadState, observe);
      var stack := if threadId in threadDiskIOUsage then threadDiskIOUsage[threadId] else [];
      threadDiskIOUsage := threadDiskIOUsage[threadId := stack + [m]];
    }

    /** Records from the top measurement of the thread's stack, then pops
        it; with no stack or an empty one it throws and changes nothing. */
    method OnEnd(operationName: string, eventName: string, threadId: int, now: int,
                 observe: Observer, calculators: Calculators, baggage: Entries, sink: Sink)
      returns (thrown: Option<Failure>)
      modifies this, sink
      ensures match ThreadStacks.End(old(threadDiskIOUsage), threadId)
        case Err(f) =>
          thrown == Some(f) && threadDiskIOUsage == old(threadDiskIOUsage) && sink.log == old(sink.log)
        case Ok(popped) =>
          thrown == None && threadDiskIOUsage == popped.1
          && sink.log == old(sink.log) + EndRecording(popped.0, now, observe, calculators, baggage)
    {
      var peeked := ThreadStacks.Top(threadDiskIOUsage, threadId);
      if peeked.Err? {
        return Some(peeked.failure);
      }
      sink.log := sink.log + EndRecording(peeked.value, now, observe, calculators, baggage);
      threadDiskIOUsage := ThreadStacks.Pop(threadDiskIOUsage, threadId);
      thrown := None;
    }

    /** The listener reacts to every event. */
    function IsApplicable(operationName: string, eventName: string): (r: bool)
      ensures r
    {
      true
    }
  }
}

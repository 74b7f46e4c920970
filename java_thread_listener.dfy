/** JavaThreadEventListener: per-thread CPU time, allocation and elapsed
    time between an onStart and its matching onEnd, read from ThreadMXBean. */
module JavaThreadListener {
  import opened Common
  import opened Meters
  import ThreadStacks

  /** What ThreadMXBean reports for one thread at one instant. */
  datatype ThreadReading = ThreadReading(
    cpuNanos: int, allocatedBytes: int,
    blockedCount: int, waitedCount: int, blockedTime: int, waitedTime: int)

  /** A SupportedMeasurement as its constructor leaves it. */
  datatype Measurement = Measurement(threadId: int, startTime: int, start: ThreadReading)

  /** The three values endRecording derives with floating-point formulas
      from the start readings, the end readings and the duration. */
  datatype CpuFigures = CpuFigures(cpuTime: real, heapAllocatedBytes: real, cpuUtilization: real)

  type Formulas = (Measurement, ThreadReading, int) -> CpuFigures

  /** The blocked/waited meters: their recordings sit behind `if (false)`. */
  const BlockedWaitedMeters: set<Meter> :=
    {Trace(BlockedCount), Trace(WaitedCount), Trace(BlockedTime), Trace(WaitedTime)}

  /** The meters endRecording records to, in order. */
  const RecordingOrder: seq<Meter> :=
    [Trace(CpuTime), Trace(HeapAllocatedBytes), Trace(ElapsedTime), Trace(CpuUtilization)]

  /** SupportedMeasurement.endRecording: what it sends to the sink. */
  function EndRecording(m: Measurement, endTime: int, end: ThreadReading,
                        formulas: Formulas, baggage: Entries): (events: seq<Event>)
    ensures |events| == 4
    ensures Recorded(events) == {Trace(CpuTime), Trace(HeapAllocatedBytes), Trace(ElapsedTime), Trace(CpuUtilization)}
    ensures RecordsWith(events, BaggageAttributes(baggage))
    ensures forall i :: 0 <= i < |events| ==> events[i].Record? && events[i].meter !in BlockedWaitedMeters
    ensures events[2] == Record(Trace(ElapsedTime), (endTime - m.startTime) as real, BaggageAttributes(baggage))
    ensures forall i :: 0 <= i < 4 ==> events[i].meter == RecordingOrder[i]
    ensures var f := formulas(m, end, endTime - m.startTime);
      forall e :: e in events && e.Record? ==>
        && (e.meter == Trace(CpuTime) ==> e.value == f.cpuTime)
        && (e.meter == Trace(HeapAllocatedBytes) ==> e.value == f.heapAllocatedBytes)
        && (e.meter == Trace(CpuUtilization) ==> e.value == f.cpuUtilization)
  {
    var duration := endTime - m.startTime;
    Recordings(formulas(m, end, duration), duration, BaggageAttributes(baggage))
  }

  /** The four recordings, to the CPU-time, heap, elapsed-time and
      CPU-utilization meters. */
  function Recordings(figures: CpuFigures, duration: int, attributes: Entries): (events: seq<Event>)
    ensures |events| == 4
    ensures Recorded(events) == {Trace(CpuTime), Trace(HeapAllocatedBytes), Trace(ElapsedTime), Trace(CpuUtilization)}
    ensures RecordsWith(events, attributes)
    ensures forall i :: 0 <= i < |events| ==> events[i].Record? && events[i].meter !in BlockedWaitedMeters
    ensures events[2] == Record(Trace(ElapsedTime), duration as real, attributes)
    ensures forall i :: 0 <= i < 4 ==> events[i].meter == RecordingOrder[i]
    ensures forall e :: e in events && e.Record? ==>
      && (e.meter == Trace(CpuTime) ==> e.value == figures.cpuTime)
      && (e.meter == Trace(HeapAllocatedBytes) ==> e.value == figures.heapAllocatedBytes)
      && (e.meter == Trace(CpuUtilization) ==> e.value == figures.cpuUtilization)
  {
    var cpu := [ Record(Trace(CpuTime), figures.cpuTime, attributes),
                 Record(Trace(HeapAllocatedBytes), figures.heapAllocatedBytes, attributes) ];
    var elapsed := [ Record(Trace(ElapsedTime), duration as real, attributes),
                     Record(Trace(CpuUtilization), figures.cpuUtilization, attributes) ];
    RecordedPair(cpu[0], cpu[1]);
    RecordedPair(elapsed[0], elapsed[1]);
    RecordedAppend(cpu, elapsed);
    assert (cpu + elapsed)[2] == elapsed[0];
    cpu + elapsed
  }

  class JavaThreadEventListener {
    var threadCpuUsage: ThreadStacks.Registry<Measurement>

    constructor ()
      ensures threadCpuUsage == map[]
    {
      threadCpuUsage := map[];
    }

    /** Pushes a measurement started now onto the thread's stack, creating
        the stack when the thread has none. */
    method OnStart(operationName: string, eventName: string, threadId: int,
                   now: int, reading: ThreadReading)
      modifies this
      ensures threadCpuUsage == ThreadStacks.Push(old(threadCpuUsage), threadId, Measurement(threadId, now, reading))
    {
      var stack := if threadId in threadCpuUsage then threadCpuUsage[threadId] else [];
      threadCpuUsage := threadCpuUsage[threadId := stack + [Measurement(threadId, now, reading)]];
    }

    /** Records from the top measurement of the thread's stack, then pops
        it; with no stack or an empty one it throws and changes nothing. */
    method OnEnd(operationName: string, eventName: string, threadId: int, now: int,
                 end: ThreadReading, formulas: Formulas, baggage: Entries, sink: Sink)
      returns (thrown: Option<Failure>)
      modifies this, sink
      ensures match ThreadStacks.End(old(threadCpuUsage), threadId)
        case Err(f) =>
          thrown == Some(f) && threadCpuUsage == old(threadCpuUsage) && sink.log == old(sink.log)
        case Ok(popped) =>
          thrown == None && threadCpuUsage == popped.1
          && sink.log == old(sink.log) + EndRecording(popped.0, now, end, formulas, baggage)
    {
      var peeked := ThreadStacks.Top(threadCpuUsage, threadId);
      if peeked.Err? {
        return Some(peeked.failure);
      }
      sink.log := sink.log + EndRecording(peeked.value, now, end, formulas, baggage);
      threadCpuUsage := ThreadStacks.Pop(threadCpuUsage, threadId);
      thrown := None;
    }

    /** The listener reacts to every event. */
    function IsApplicable(operationName: string, eventName: string): (r: bool)
      ensures r
    {
      true
    }
  }
}

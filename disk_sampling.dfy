/** The per-disk recording step shared by the Scheduled.run of
    DiskTracingService and DiskStatsTracingService: the disk observer's
    readings rotate through two slots, DiskMetricsCalculator compares them,
    and every disk in its result gets three recordings and a reset. */
module DiskSampling {
  import opened Common
  import opened Meters

  /** One disk's raw counters (a Map<String, Object>). */
  type DiskCounters = map<string, int>

  /** A reading of the disk observer: counters per disk name. */
  type DiskObservation = map<string, DiskCounters>

  /** collectors.DiskMetrics: the three figures recorded per disk. */
  datatype DiskMetrics = DiskMetrics(utilization: real, await: real, serviceRate: real)

  /** calculateDiskMetrics(kvTimestamp, oldkvTimestamp, current, old): its
      entries in the map's iteration order, or None for a null map. */
  type DiskCalculator = (int, int, DiskObservation, DiskObservation) -> Option<seq<(string, DiskMetrics)>>

  /** One loop iteration: three recordings, then a reset. */
  function EntryRecords(entry: (string, DiskMetrics), attrs: Entries): (events: seq<Event>)
    ensures |events| == 4 && events[3] == Reset(DiskStatsMeters)
    ensures RecordsWith(events[..3], attrs)
    ensures events[0].meter == DiskStats(Utilization) && events[0].value == entry.1.utilization
    ensures events[1].meter == DiskStats(Await) && events[1].value == entry.1.await
    ensures events[2].meter == DiskStats(ServiceRate) && events[2].value == entry.1.serviceRate
  {
    [ Record(DiskStats(Utilization), entry.1.utilization, attrs),
      Record(DiskStats(Await), entry.1.await, attrs),
      Record(DiskStats(ServiceRate), entry.1.serviceRate, attrs),
      Reset(DiskStatsMeters) ]
  }

  /** The whole loop over the calculator's entries. */
  function DiskRecords(entries: seq<(string, DiskMetrics)>, attrs: Entries): (events: seq<Event>)
    ensures |events| == 4 * |entries|
  {
    if entries == [] then []
    else DiskRecords(entries[..|entries| - 1], attrs) + EntryRecords(entries[|entries| - 1], attrs)
  }

  /** Disk k's recordings are the k-th block of four, in the calculator's
      order. */
  lemma {:induction false} DiskRecordsBlock(entries: seq<(string, DiskMetrics)>, attrs: Entries, k: nat)
    requires k < |entries|
    ensures DiskRecords(entries, attrs)[4 * k .. 4 * k + 4] == EntryRecords(entries[k], attrs)
    decreases |entries|
  {
    var n := |entries| - 1;
    var front := DiskRecords(entries[..n], attrs);
    assert DiskRecords(entries, attrs) == front + EntryRecords(entries[n], attrs);
    if k < n {
      DiskRecordsBlock(entries[..n], attrs, k);
      assert entries[..n][k] == entries[k];
      assert (front + EntryRecords(entries[n], attrs))[4 * k .. 4 * k + 4] == front[4 * k .. 4 * k + 4];
    } else {
      assert |front| == 4 * k;
    }
  }

  /** Each disk resets the meters once: exactly as many resets as disks. */
  lemma {:induction false} DiskRecordsResets(entries: seq<(string, DiskMetrics)>, attrs: Entries)
    ensures ResetCount(DiskRecords(entries, attrs), DiskStatsMeters) == |entries|
    decreases |entries|
  {
    if entries != [] {
      var n := |entries| - 1;
      var last := EntryRecords(entries[n], attrs);
      DiskRecordsResets(entries[..n], attrs);
      ResetCountAppend(DiskRecords(entries[..n], attrs), last, DiskStatsMeters);
      assert last == last[..3] + [Reset(DiskStatsMeters)];
      ResetOnceAfter(last[..3], attrs, DiskStatsMeters);
    }
  }

  /** What one run records after the rotation: nothing for a null result,
      otherwise the per-disk loop. */
  function TickEvents(kvTimestamp: int, oldkvTimestamp: int, current: DiskObservation,
                      previous: DiskObservation, calculator: DiskCalculator, baggage: Entries)
    : (events: seq<Event>)
    ensures calculator(kvTimestamp, oldkvTimestamp, current, previous).None? ==> events == []
    ensures calculator(kvTimestamp, oldkvTimestamp, current, previous).Some? ==>
      |events| == 4 * |calculator(kvTimestamp, oldkvTimestamp, current, previous).value|
  {
    match calculator(kvTimestamp, oldkvTimestamp, current, previous)
    case None => []
    case Some(entries) => DiskRecords(entries, BaggageAttributes(baggage))
  }

  /** The for-loop over the calculator's entries, appending to the sink. */
  method RecordDiskMetrics(sink: Sink, entries: seq<(string, DiskMetrics)>, attrs: Entries)
    modifies sink
    ensures sink.log == old(sink.log) + DiskRecords(entries, attrs)
  {
    var i := 0;
    while i < |entries|
      invariant 0 <= i <= |entries|
      invariant sink.log == old(sink.log) + DiskRecords(entries[..i], attrs)
    {
      assert entries[..i + 1][..i] == entries[..i];
      sink.log := sink.log + EntryRecords(entries[i], attrs);
      i := i + 1;
    }
    assert entries[..i] == entries;
  }
}

/** MountedStatsTracingService: three asynchronous gauges (total, free and
    usable space) per mounted partition, built and closed as the
    mounted-partition flag changes. */
module MountedStatsTracingService {
  import opened Common

  const MountPointKey: string := "MountPoint"
  const DevicePartitionKey: string := "DevicePartition"

  /** A PartitionKey. It defines no equals/hashCode, so two keys with the
      same fields are still different map keys. */
  datatype PartitionKey = PartitionKey(mountPoint: string, devicePartition: string)

  datatype SpaceKind = TotalSpace | FreeSpace | UsableFreeSpace

  /** The attributes of a partition's gauges: the baggage, then MountPoint,
      then DevicePartition. */
  function GaugeAttributes(baggage: Entries, p: PartitionKey): Entries {
    Put(Put(BaggageAttributes(baggage), MountPointKey, p.mountPoint), DevicePartitionKey, p.devicePartition)
  }

  /** A gauge's attributes carry the partition's mount point and device
      partition, and every other key as the baggage has it. */
  lemma GaugeAttributesCarryPartition(baggage: Entries, p: PartitionKey)
    ensures var attrs := GaugeAttributes(baggage, p);
      && Lookup(attrs, MountPointKey) == Some(p.mountPoint)
      && Lookup(attrs, DevicePartitionKey) == Some(p.devicePartition)
      && (forall k :: k != MountPointKey && k != DevicePartitionKey ==>
            Lookup(attrs, k) == Lookup(BaggageAttributes(baggage), k))
      && Keys(attrs) == Keys(baggage) + {MountPointKey, DevicePartitionKey}
  {
  }

  /** A gauge built, under the current baggage, with a callback that reports
      one space figure of the partition's mount point. */
  datatype Gauge = Gauge(kind: SpaceKind, partition: PartitionKey, baggage: Entries)
  {
    /** The directory whose space the callback reads. */
    function MountPoint(): string {
      partition.mountPoint
    }

    /** The attributes every measurement of the gauge carries. */
    function Attributes(): Entries {
      GaugeAttributes(baggage, partition)
    }
  }

  /** One gauge of the given kind per partition, in iteration order. */
  function GaugesFor(partitions: seq<PartitionKey>, baggage: Entries, kind: SpaceKind): seq<Gauge> {
    seq(|partitions|, i requires 0 <= i < |partitions| => Gauge(kind, partitions[i], baggage))
  }

  /** The i-th gauge of a kind reads the i-th partition's mount point and
      records under that partition's attributes. */
  lemma GaugesFollowPartitions(partitions: seq<PartitionKey>, baggage: Entries, kind: SpaceKind)
    ensures var gs := GaugesFor(partitions, baggage, kind);
      && |gs| == |partitions|
      && forall i :: 0 <= i < |gs| ==>
           && gs[i].kind == kind && gs[i].MountPoint() == partitions[i].mountPoint
           && gs[i].Attributes() == GaugeAttributes(baggage, partitions[i])
  {
  }

  /** The keys loadMountedPartitions adds for an observation (mount point to
      device partition, in iteration order): one new key per entry. */
  function NewKeys(observed: seq<(string, string)>): (ks: seq<PartitionKey>)
    ensures |ks| == |observed|
    ensures forall i :: 0 <= i < |ks| ==> ks[i] == PartitionKey(observed[i].0, observed[i].1)
  {
    seq(|observed|, i requires 0 <= i < |observed| => PartitionKey(observed[i].0, observed[i].1))
  }

  class MountedStatsTracingService {
    /** partitionKeyFileMap's keys in iteration order (each maps to the File
        of its mount point). */
    var partitions: seq<PartitionKey>
    var totalSpaceGauges: seq<Gauge>
    var freeSpaceGauges: seq<Gauge>
    var usableFreeSpaceGauges: seq<Gauge>
    /** Every gauge closed so far, in closing order. */
    var closed: seq<Gauge>
    var consumers: nat

    constructor ()
      ensures partitions == [] && closed == [] && consumers == 0
      ensures totalSpaceGauges == [] && freeSpaceGauges == [] && usableFreeSpaceGauges == []
    {
      partitions := [];
      totalSpaceGauges := [];
      freeSpaceGauges := [];
      usableFreeSpaceGauges := [];
      closed := [];
      consumers := 0;
    }

    /** Closes the gauges of one list in order. */
    method CloseAll(gauges: seq<Gauge>)
      modifies this
      ensures closed == old(closed) + gauges
      ensures partitions == old(partitions) && consumers == old(consumers)
      ensures totalSpaceGauges == old(totalSpaceGauges) && freeSpaceGauges == old(freeSpaceGauges)
      ensures usableFreeSpaceGauges == old(usableFreeSpaceGauges)
    {
      var i := 0;
      while i < |gauges|
        invariant 0 <= i <= |gauges|
        invariant closed == old(closed) + gauges[..i]
        invariant partitions == old(partitions) && consumers == old(consumers)
        invariant totalSpaceGauges == old(totalSpaceGauges) && freeSpaceGauges == old(freeSpaceGauges)
        invariant usableFreeSpaceGauges == old(usableFreeSpaceGauges)
      {
        assert gauges[..i + 1] == gauges[..i] + [gauges[i]];
        closed := closed + [gauges[i]];
        i := i + 1;
      }
      assert gauges[..i] == gauges;
    }

    /** stopGauges: closes every gauge of the three lists, list by list,
        and leaves the three lists empty. */
    method StopGauges()
      modifies this
      ensures closed == old(closed) + old(totalSpaceGauges) + old(freeSpaceGauges) + old(usableFreeSpaceGauges)
      ensures totalSpaceGauges == [] && freeSpaceGauges == [] && usableFreeSpaceGauges == []
      ensures partitions == old(partitions) && consumers == old(consumers)
    {
      if totalSpaceGauges != [] {
        CloseAll(totalSpaceGauges);
        totalSpaceGauges := [];
      }
      if freeSpaceGauges != [] {
        CloseAll(freeSpaceGauges);
        freeSpaceGauges := [];
      }
      if usableFreeSpaceGauges != [] {
        CloseAll(usableFreeSpaceGauges);
        usableFreeSpaceGauges := [];
      }
    }

    /** initMetricGauges: for every partition, in order, one gauge of each
        kind appended to its list. */
    method InitMetricGauges(baggage: Entries)
      modifies this
      ensures totalSpaceGauges == old(totalSpaceGauges) + GaugesFor(partitions, baggage, TotalSpace)
      ensures freeSpaceGauges == old(freeSpaceGauges) + GaugesFor(partitions, baggage, FreeSpace)
      ensures usableFreeSpaceGauges == old(usableFreeSpaceGauges) + GaugesFor(partitions, baggage, UsableFreeSpace)
      ensures partitions == old(partitions) && closed == old(closed) && consumers == old(consumers)
    {
      var i := 0;
      while i < |partitions|
        invariant 0 <= i <= |partitions|
        invariant totalSpaceGauges == old(totalSpaceGauges) + GaugesFor(partitions[..i], baggage, TotalSpace)
        invariant freeSpaceGauges == old(freeSpaceGauges) + GaugesFor(partitions[..i], baggage, FreeSpace)
        invariant usableFreeSpaceGauges == old(usableFreeSpaceGauges) + GaugesFor(partitions[..i], baggage, UsableFreeSpace)
        invariant partitions == old(partitions) && closed == old(closed) && consumers == old(consumers)
      {
        ExtendGauges(partitions, i, baggage, TotalSpace);
        ExtendGauges(partitions, i, baggage, FreeSpace);
        ExtendGauges(partitions, i, baggage, UsableFreeSpace);
        AddPartitionGauges(partitions[i], baggage);
        i := i + 1;
      }
      assert partitions[..i] == partitions;
    }

    /** One iteration of initMetricGauges: the partition's attributes, then
        one gauge appended to each list. */
    method AddPartitionGauges(p: PartitionKey, baggage: Entries)
      modifies this
      ensures totalSpaceGauges == old(totalSpaceGauges) + [Gauge(TotalSpace, p, baggage)]
      ensures freeSpaceGauges == old(freeSpaceGauges) + [Gauge(FreeSpace, p, baggage)]
      ensures usableFreeSpaceGauges == old(usableFreeSpaceGauges) + [Gauge(UsableFreeSpace, p, baggage)]
      ensures partitions == old(partitions) && closed == old(closed) && consumers == old(consumers)
    {
      totalSpaceGauges := totalSpaceGauges + [Gauge(TotalSpace, p, baggage)];
      freeSpaceGauges := freeSpaceGauges + [Gauge(FreeSpace, p, baggage)];
      usableFreeSpaceGauges := usableFreeSpaceGauges + [Gauge(UsableFreeSpace, p, baggage)];
    }

    /** loadMountedPartitions: one new key per observed entry; nothing is
        ever removed. */
    method LoadMountedPartitions(observed: seq<(string, string)>)
      modifies this
      ensures partitions == old(partitions) + NewKeys(observed)
      ensures totalSpaceGauges == old(totalSpaceGauges) && freeSpaceGauges == old(freeSpaceGauges)
      ensures usableFreeSpaceGauges == old(usableFreeSpaceGauges)
      ensures closed == old(closed) && consumers == old(consumers)
    {
      var i := 0;
      while i < |observed|
        invariant 0 <= i <= |observed|
        invariant partitions == old(partitions) + NewKeys(observed[..i])
        invariant totalSpaceGauges == old(totalSpaceGauges) && freeSpaceGauges == old(freeSpaceGauges)
        invariant usableFreeSpaceGauges == old(usableFreeSpaceGauges)
        invariant closed == old(closed) && consumers == old(consumers)
      {
        assert NewKeys(observed[..i + 1]) == NewKeys(observed[..i]) + [PartitionKey(observed[i].0, observed[i].1)];
        partitions := partitions + [PartitionKey(observed[i].0, observed[i].1)];
        i := i + 1;
      }
      assert observed[..i] == observed;
    }

    /** init: partitions and gauges only when the flag is on; the flag's
        consumer is registered either way. */
    method Init(enabled: bool, observed: seq<(string, string)>, baggage: Entries)
      modifies this
      ensures consumers == old(consumers) + 1
      ensures enabled ==> partitions == old(partitions) + NewKeys(observed)
      ensures enabled ==> totalSpaceGauges == old(totalSpaceGauges) + GaugesFor(partitions, baggage, TotalSpace)
      ensures enabled ==> freeSpaceGauges == old(freeSpaceGauges) + GaugesFor(partitions, baggage, FreeSpace)
      ensures enabled ==> usableFreeSpaceGauges == old(usableFreeSpaceGauges) + GaugesFor(partitions, baggage, UsableFreeSpace)
      ensures !enabled ==>
        && partitions == old(partitions) && totalSpaceGauges == old(totalSpaceGauges)
        && freeSpaceGauges == old(freeSpaceGauges) && usableFreeSpaceGauges == old(usableFreeSpaceGauges)
      ensures closed == old(closed)
    {
      if enabled {
        LoadMountedPartitions(observed);
        InitMetricGauges(baggage);
      }
      consumers := consumers + 1;
    }

    /** toggleMountedStatsMetrics: on, the gauges are closed, the partitions
        reloaded and one gauge of each kind built per partition; off, the
        gauges are closed. */
    method ToggleMountedStatsMetrics(enabled: bool, observed: seq<(string, string)>, baggage: Entries)
      modifies this
      ensures closed == old(closed) + old(totalSpaceGauges) + old(freeSpaceGauges) + old(usableFreeSpaceGauges)
      ensures enabled ==> partitions == old(partitions) + NewKeys(observed)
      ensures enabled ==>
        && totalSpaceGauges == GaugesFor(partitions, baggage, TotalSpace)
        && freeSpaceGauges == GaugesFor(partitions, baggage, FreeSpace)
        && usableFreeSpaceGauges == GaugesFor(partitions, baggage, UsableFreeSpace)
      ensures !enabled ==>
        && partitions == old(partitions)
        && totalSpaceGauges == [] && freeSpaceGauges == [] && usableFreeSpaceGauges == []
      ensures consumers == old(consumers)
    {
      StopGauges();
      if enabled {
        LoadMountedPartitions(observed);
        InitMetricGauges(baggage);
      }
    }
  }

  /** GaugesFor grows by one gauge per partition. */
  lemma ExtendGauges(partitions: seq<PartitionKey>, i: nat, baggage: Entries, kind: SpaceKind)
    requires i < |partitions|
    ensures GaugesFor(partitions[..i + 1], baggage, kind)
      == GaugesFor(partitions[..i], baggage, kind)
         + [Gauge(kind, partitions[i], baggage)]
  {
    assert partitions[..i + 1][..i] == partitions[..i];
  }

  /** PartitionKey defines neither equals nor hashCode, so every reload adds
      a fresh key for each mount point it observes, even one already in the
      map. The requires are the partitions and total-space gauges that
      ToggleMountedStatsMetrics(true, observed, baggage) leaves, called twice
      from `before`: each observed mount point then has two gauges. */
  lemma ToggleTwiceDuplicates(before: seq<PartitionKey>, once: seq<PartitionKey>, twice: seq<PartitionKey>,
                              gauges: seq<Gauge>, observed: seq<(string, string)>, baggage: Entries)
    requires once == before + NewKeys(observed) && twice == once + NewKeys(observed)
    requires gauges == GaugesFor(twice, baggage, TotalSpace)
    ensures |gauges| == |before| + 2 * |observed|
    ensures forall i :: 0 <= i < |observed| ==>
      gauges[|before| + i].MountPoint() == observed[i].0 && gauges[|once| + i].MountPoint() == observed[i].0
  {
    var added := NewKeys(observed);
    GaugesFollowPartitions(twice, baggage, TotalSpace);
    forall i | 0 <= i < |observed|
      ensures gauges[|before| + i].MountPoint() == observed[i].0 && gauges[|once| + i].MountPoint() == observed[i].0
    {
      assert twice[|before| + i] == once[|before| + i] == added[i];
      assert twice[|once| + i] == added[i];
    }
  }
}

/** DiskTracingService: the per-disk sampler behind a cluster-setting flag.
    init and the flag's consumer create, cancel and shut down schedulers and
    jobs; the job's run is the shared per-disk sampling step. */
module DiskTracingService {
  import opened Common
  import opened Meters
  import opened DiskSampling

  /** SCHEDULE_PERIOD, in seconds. */
  const SchedulePeriod: nat := 5

  /** A job handed to a scheduler: the scheduler it runs on, and whether
      cancel was called on its Future. */
  datatype Job = Job(executor: nat, cancelled: bool)

  /** The scheduler and job bookkeeping of the service: every scheduler ever
      created (true once shut down), every job ever scheduled, the
      `scheduler` and `diskMetricJob` fields as indices (None is null), and
      how many flag consumers were registered. */
  datatype Lifecycle = Lifecycle(
    shutDown: seq<bool>, jobs: seq<Job>,
    scheduler: Option<nat>, diskMetricJob: Option<nat>, consumers: nat)

  /** The fields point at schedulers and jobs that exist. */
  predicate WellFormed(s: Lifecycle) {
    && (s.scheduler.Some? ==> s.scheduler.value < |s.shutDown|)
    && (s.diskMetricJob.Some? ==> s.diskMetricJob.value < |s.jobs|)
    && (forall j :: 0 <= j < |s.jobs| ==> s.jobs[j].executor < |s.shutDown|)
  }

  /** Right after the private constructor: no scheduler, no job. */
  const Initial: Lifecycle := Lifecycle([], [], None, None, 0)

  /** The jobs still running: not cancelled, on a scheduler not shut down
      (shutting down a ScheduledThreadPoolExecutor stops its periodic jobs). */
  function ActiveJobs(s: Lifecycle): set<nat>
    requires WellFormed(s)
  {
    set j | 0 <= j < |s.jobs| && !s.jobs[j].cancelled && !s.shutDown[s.jobs[j].executor]
  }

  /** No job runs except the one the field points at, and that one was
      scheduled on the current scheduler. */
  predicate Tidy(s: Lifecycle)
    requires WellFormed(s)
  {
    && (forall j :: j in ActiveJobs(s) ==> s.diskMetricJob == Some(j))
    && (s.diskMetricJob.Some? ==> s.scheduler.Some? && s.jobs[s.diskMetricJob.value].executor == s.scheduler.value)
  }

  /** new ScheduledThreadPoolExecutor(...) assigned to `scheduler`. */
  function NewScheduler(s: Lifecycle): (s': Lifecycle)
    requires WellFormed(s)
    ensures WellFormed(s') && ActiveJobs(s') == ActiveJobs(s)
    ensures s'.scheduler == Some(|s.shutDown|) && !s'.shutDown[|s.shutDown|]
    ensures s'.jobs == s.jobs && s'.diskMetricJob == s.diskMetricJob && s'.consumers == s.consumers
  {
    s.(shutDown := s.shutDown + [false], scheduler := Some(|s.shutDown|))
  }

  /** scheduleAtFixedRate on the current scheduler, assigned to `diskMetricJob`. */
  function Schedule(s: Lifecycle): (s': Lifecycle)
    requires WellFormed(s) && s.scheduler.Some? && !s.shutDown[s.scheduler.value]
    ensures WellFormed(s') && ActiveJobs(s') == ActiveJobs(s) + {|s.jobs|}
    ensures s'.diskMetricJob == Some(|s.jobs|) && s'.jobs[|s.jobs|].executor == s.scheduler.value
    ensures s'.shutDown == s.shutDown && s'.scheduler == s.scheduler && s'.consumers == s.consumers
  {
    var s' := s.(jobs := s.jobs + [Job(s.scheduler.value, false)], diskMetricJob := Some(|s.jobs|));
    assert forall j :: 0 <= j < |s.jobs| ==> s'.jobs[j] == s.jobs[j];
    s'
  }

  /** diskMetricJob.cancel(true). */
  function Cancel(s: Lifecycle, job: nat): (s': Lifecycle)
    requires WellFormed(s) && job < |s.jobs|
    ensures WellFormed(s') && ActiveJobs(s') == ActiveJobs(s) - {job}
    ensures s'.shutDown == s.shutDown && s'.scheduler == s.scheduler
    ensures s'.diskMetricJob == s.diskMetricJob && s'.consumers == s.consumers
  {
    s.(jobs := s.jobs[job := s.jobs[job].(cancelled := true)])
  }

  /** init: a scheduler and one job only when the flag is on; the flag's
      consumer is registered either way. */
  function InitStep(s: Lifecycle, enabled: bool): (s': Lifecycle)
    requires WellFormed(s)
    ensures WellFormed(s') && s'.consumers == s.consumers + 1
    ensures !enabled ==> s'.(consumers := s.consumers) == s
  {
    var started := if enabled then Schedule(NewScheduler(s)) else s;
    started.(consumers := s.consumers + 1)
  }

  /** shutDown: dereferences `scheduler`. */
  function ShutDownStep(s: Lifecycle): (r: Result<Lifecycle>)
    requires WellFormed(s)
    ensures r.Err? <==> s.scheduler.None?
    ensures r.Err? ==> r.failure == NullPointer
    ensures r.Ok? ==>
      && WellFormed(r.value) && r.value.scheduler == s.scheduler && r.value.shutDown[s.scheduler.value]
      && r.value.jobs == s.jobs && r.value.diskMetricJob == s.diskMetricJob
  {
    if s.scheduler.None? then Err(NullPointer)
    else Ok(s.(shutDown := s.shutDown[s.scheduler.value := true]))
  }

  /** toggleDiskStatsMetrics as written. With the flag on, the guard
      `job != null || !job.isDone() || !job.isCancelled()` cancels any
      existing job and dereferences a null one; then a scheduler that is
      null or shut down is replaced, and one job is scheduled. With the
      flag off it shuts down. */
  function ToggleStep(s: Lifecycle, enabled: bool): (r: Result<Lifecycle>)
    requires WellFormed(s)
    ensures r.Ok? ==> WellFormed(r.value)
    ensures enabled ==> (r.Err? <==> s.diskMetricJob.None?)
    ensures enabled && r.Ok? ==> r.value.diskMetricJob == Some(|s.jobs|)
    ensures r.Err? ==> r.failure == NullPointer
  {
    if enabled then
      if s.diskMetricJob.None? then Err(NullPointer)
      else Ok(ScheduleFresh(Cancel(s, s.diskMetricJob.value)))
    else ShutDownStep(s)
  }

  /** The tail of the enabled branch: make sure a live scheduler exists,
      then schedule one job on it. */
  function ScheduleFresh(s: Lifecycle): (s': Lifecycle)
    requires WellFormed(s)
    ensures WellFormed(s') && ActiveJobs(s') == ActiveJobs(s) + {|s.jobs|}
    ensures s'.diskMetricJob == Some(|s.jobs|) && s'.scheduler.Some?
    ensures s'.jobs[|s.jobs|].executor == s'.scheduler.value
    ensures s'.consumers == s.consumers
  {
    var live := if s.scheduler.None? || s.shutDown[s.scheduler.value] then NewScheduler(s) else s;
    Schedule(live)
  }

  /** The guard as evidently intended, `job != null && !job.isDone() &&
      !job.isCancelled()`: only a job that still runs is cancelled, and a
      null job is skipped. */
  function ToggleStepCorrected(s: Lifecycle, enabled: bool): (r: Result<Lifecycle>)
    requires WellFormed(s)
    ensures r.Ok? ==> WellFormed(r.value)
    ensures r.Err? <==> !enabled && s.scheduler.None?
  {
    if enabled then
      var stopped :=
        if s.diskMetricJob.Some? && s.diskMetricJob.value in ActiveJobs(s) then Cancel(s, s.diskMetricJob.value)
        else s;
      Ok(ScheduleFresh(stopped))
    else ShutDownStep(s)
  }

  /** init from the initial state: tidy, one consumer, and with the flag on
      exactly one scheduler and one running job; with it off, none. */
  lemma InitFromInitial(enabled: bool)
    ensures var s := InitStep(Initial, enabled);
      && Tidy(s) && s.consumers == 1
      && (enabled ==> |s.shutDown| == 1 && ActiveJobs(s) == {0} && s.diskMetricJob == Some(0))
      && (!enabled ==> s.scheduler.None? && s.diskMetricJob.None? && s.jobs == [])
  {
    var s := InitStep(Initial, enabled);
    if enabled {
      assert ActiveJobs(s) == {0};
    } else {
      assert ActiveJobs(s) == {};
    }
  }

  /** The crash: with the flag off at init, turning it on later throws a
      NullPointerException and changes nothing. */
  lemma ToggleOnAfterDisabledInit()
    ensures ToggleStep(InitStep(Initial, false), true) == Err(NullPointer)
  {
  }

  /** Turning the flag on, when it succeeds, leaves exactly one running job:
      the new one. */
  lemma ToggleOnLeavesOneJob(s: Lifecycle)
    requires WellFormed(s) && Tidy(s)
    ensures ToggleStep(s, true).Ok? ==>
      var s' := ToggleStep(s, true).value;
      Tidy(s') && ActiveJobs(s') == {s'.diskMetricJob.value}
  {
    if s.diskMetricJob.Some? {
      var s' := ToggleStep(s, true).value;
      assert ActiveJobs(Cancel(s, s.diskMetricJob.value)) == {};
      assert ActiveJobs(s') == {|s.jobs|};
    }
  }

  /** Turning the flag off stops every job, when there is a scheduler to
      shut down; without one it throws. */
  lemma ToggleOffStopsAll(s: Lifecycle)
    requires WellFormed(s) && Tidy(s)
    ensures ToggleStep(s, false).Err? <==> s.scheduler.None?
    ensures ToggleStep(s, false).Ok? ==>
      var s' := ToggleStep(s, false).value;
      Tidy(s') && ActiveJobs(s') == {}
  {
    if s.scheduler.Some? {
      var s' := ToggleStep(s, false).value;
      assert ActiveJobs(s') <= ActiveJobs(s);
    }
  }

  /** With the corrected guard, turning the flag on never throws and always
      leaves exactly one running job. */
  lemma CorrectedToggleOnLeavesOneJob(s: Lifecycle)
    requires WellFormed(s) && Tidy(s)
    ensures ToggleStepCorrected(s, true).Ok?
    ensures var s' := ToggleStepCorrected(s, true).value;
      Tidy(s') && ActiveJobs(s') == {s'.diskMetricJob.value}
  {
    var stopped :=
      if s.diskMetricJob.Some? && s.diskMetricJob.value in ActiveJobs(s) then Cancel(s, s.diskMetricJob.value)
      else s;
    assert ActiveJobs(stopped) == {};
  }

  class DiskTracingService {
    var metricsPerDisk: DiskObservation
    var oldMetricsPerDisk: DiskObservation
    var kvTimestamp: int
    var oldkvTimestamp: int
    var schedulerShutDown: seq<bool>
    var jobs: seq<Job>
    var scheduler: Option<nat>
    var diskMetricJob: Option<nat>
    var consumers: nat

    function State(): Lifecycle
      reads this
    {
      Lifecycle(schedulerShutDown, jobs, scheduler, diskMetricJob, consumers)
    }

    constructor ()
      ensures State() == Initial
      ensures metricsPerDisk == map[] && oldMetricsPerDisk == map[]
      ensures kvTimestamp == 0 && oldkvTimestamp == 0
    {
      metricsPerDisk := map[];
      oldMetricsPerDisk := map[];
      kvTimestamp := 0;
      oldkvTimestamp := 0;
      schedulerShutDown := [];
      jobs := [];
      scheduler := None;
      diskMetricJob := None;
      consumers := 0;
    }

    method SetState(s: Lifecycle)
      modifies this
      ensures State() == s
      ensures metricsPerDisk == old(metricsPerDisk) && oldMetricsPerDisk == old(oldMetricsPerDisk)
      ensures kvTimestamp == old(kvTimestamp) && oldkvTimestamp == old(oldkvTimestamp)
    {
      schedulerShutDown := s.shutDown;
      jobs := s.jobs;
      scheduler := s.scheduler;
      diskMetricJob := s.diskMetricJob;
      consumers := s.consumers;
    }

    method Init(enabled: bool)
      requires WellFormed(State())
      modifies this
      ensures State() == InitStep(old(State()), enabled)
      ensures metricsPerDisk == old(metricsPerDisk) && oldMetricsPerDisk == old(oldMetricsPerDisk)
      ensures kvTimestamp == old(kvTimestamp) && oldkvTimestamp == old(oldkvTimestamp)
    {
      var s := State();
      if enabled {
        s := NewScheduler(s);
        s := Schedule(s);
      }
      SetState(s.(consumers := consumers + 1));
    }

    method ToggleDiskStatsMetrics(enabled: bool) returns (thrown: Option<Failure>)
      requires WellFormed(State())
      modifies this
      ensures match ToggleStep(old(State()), enabled)
        case Err(f) => thrown == Some(f) && State() == old(State())
        case Ok(s') => thrown == None && State() == s'
      ensures metricsPerDisk == old(metricsPerDisk) && oldMetricsPerDisk == old(oldMetricsPerDisk)
      ensures kvTimestamp == old(kvTimestamp) && oldkvTimestamp == old(oldkvTimestamp)
    {
      if !enabled {
        thrown := ShutDown();
        return;
      }
      if diskMetricJob.None? {
        return Some(NullPointer);
      }
      var s := Cancel(State(), diskMetricJob.value);
      if s.scheduler.None? || s.shutDown[s.scheduler.value] {
        s := NewScheduler(s);
      }
      SetState(Schedule(s));
      thrown := None;
    }

    method ShutDown() returns (thrown: Option<Failure>)
      requires WellFormed(State())
      modifies this
      ensures match ShutDownStep(old(State()))
        case Err(f) => thrown == Some(f) && State() == old(State())
        case Ok(s') => thrown == None && State() == s'
      ensures metricsPerDisk == old(metricsPerDisk) && oldMetricsPerDisk == old(oldMetricsPerDisk)
      ensures kvTimestamp == old(kvTimestamp) && oldkvTimestamp == old(oldkvTimestamp)
    {
      if scheduler.None? {
        return Some(NullPointer);
      }
      schedulerShutDown := schedulerShutDown[scheduler.value := true];
      thrown := None;
    }

    /** Scheduled.run: rotate the readings and the timestamps, then record
        every disk of a non-null calculator result. */
    method Tick(now: int, observed: DiskObservation, calculator: DiskCalculator, baggage: Entries, sink: Sink)
      modifies this, sink
      ensures oldMetricsPerDisk == old(metricsPerDisk) && metricsPerDisk == observed
      ensures oldkvTimestamp == old(kvTimestamp) && kvTimestamp == now
      ensures State() == old(State())
      ensures sink.log == old(sink.log) + TickEvents(now, old(kvTimestamp), observed, old(metricsPerDisk), calculator, baggage)
    {
      oldMetricsPerDisk := metricsPerDisk;
      metricsPerDisk := observed;
      oldkvTimestamp := kvTimestamp;
      kvTimestamp := now;
      var diskMetrics := calculator(kvTimestamp, oldkvTimestamp, metricsPerDisk, oldMetricsPerDisk);
      if diskMetrics.Some? {
        RecordDiskMetrics(sink, diskMetrics.value, BaggageAttributes(baggage));
      }
    }
  }
}

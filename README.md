# OpenSearch OpenTelemetry tracing: a Dafny model

This project models the bookkeeping core of the experimental OpenTelemetry
tracing package of OpenSearch (`org.opensearch.tracing.opentelemetry`):

- `OpenTelemetryService`, which covers:
  - which thread pools are traced;
  - `createBaggage`, the derivation of a child span's baggage with its
    `SpanName_<level>` nesting marker;
  - `callTaskEventListeners`, the fan-out of a start or end event to the
    registered task event listeners;
  - `TaskEventListeners.getInstance`, the one-time registration of those
    listeners;
  - the order in which the two span wrappers (`callFunctionAndStartSpan`
    and `wrapAndCallFunction`) run the hooks, the wrapped call and the
    closing of the span, including when the call throws.
- The three task event listeners (`JavaThreadEventListener`,
  `DiskStatsEventListener`, `NetworkStatsEventListener`). Each keeps a
  per-thread stack of measurements: `onStart` pushes one, `onEnd` records
  from the top one and pops it. Each `endRecording` gates which meters
  receive a recording.
- The `Scheduled.run` ticks of `NetworkTracingService`, `DiskTracingService`
  and `DiskStatsTracingService`. Each tick rotates a two-slot reading and
  the timestamps, runs a calculator, records the result and resets the
  meters.
- The lifecycles of `DiskTracingService` (scheduler and job under the disk
  flag) and `MountedStatsTracingService` (three gauge lists and the
  partition map under the mounted-partition flag).

How the model is built:

- **Listeners, services and the sink are classes.** Their fields are the
  Java fields, and their methods update those fields.
- **Methods are specified by functions.** A method's contract ties its new
  state, and what it appends to the metric sink, to a pure function of the
  old state. The properties are then proved about those functions.
- **The metric backend is a `Sink`.** Its log lists every recording: the
  meter, the value and the attributes.
- **A meters class's `reset()` is one `Reset` event.**
- **Outside code is a parameter.**
  - The OS observers, the metric calculators, the `ThreadMXBean` figures
    and the clock are arguments: values, or functions of their inputs.
  - The current context is a `Context` value: whether it is the root, and
    the current baggage.
- **The span wrappers are functions.** Each returns the trace of actions it
  performs: hook calls, the wrapped call, the elapsed-time recording and the
  span's end.
- **Baggage and attribute sets are `Entries`.** These are sequences of
  string pairs in iteration order. A builder's `put` replaces the value of
  a key already there, in place, and otherwise appends.

Two facts about the code that the model keeps:

- **The CPU-utilisation rate is always computed.** `endRecording` divides
  by the duration even when the end time is not after the start
  (`JavaThreadEventListener.java:80`).
- **`wrapAndCallFunction` is synchronous.** The function it returns runs
  the end hooks and `closeCurrentScope` on the calling thread, before it
  returns.

## Model

Source paths are under `server/src/main/java/org/opensearch/tracing/opentelemetry/`, written in full.

| member | source | states |
|---|---|---|
| OpenTelemetryService.IsThreadPoolAllowed | server/src/main/java/org/opensearch/tracing/opentelemetry/OpenTelemetryService.java:96-98 | true exactly for "generic", "search" and "transport" (ThreadPool.Names.GENERIC, SEARCH and the literal of the allowed list) |
| OpenTelemetryService.IsApplicable | server/src/main/java/org/opensearch/tracing/opentelemetry/OpenTelemetryService.java:222 | the three listeners of the package are applicable to every event; other listeners answer through an oracle |
| OpenTelemetryService.Fanout | server/src/main/java/org/opensearch/tracing/opentelemetry/OpenTelemetryService.java:221-229 | the loop calls at most one hook per listener. Each call is on an applicable listener, with onStart for a start event and onEnd otherwise, under the current baggage. Positions strictly increase, so the list order is kept |
| OpenTelemetryService.Dispatch | server/src/main/java/org/opensearch/tracing/opentelemetry/OpenTelemetryService.java:216-233 | no hook is called in the root context, or for a null or empty list |
| OpenTelemetryService.DispatchReachesExactlyApplicable | server/src/main/java/org/opensearch/tracing/opentelemetry/OpenTelemetryService.java:218-229 | outside the root context a listener is reached if and only if it is applicable. Each one is reached once, in list order, with the hook the event asks for and the current baggage |
| OpenTelemetryService.PackageListenersAlwaysReached | server/src/main/java/org/opensearch/tracing/opentelemetry/OpenTelemetryService.java:221-228 | outside the root context every listener of the package is reached |
| OpenTelemetryService.CallTaskEventListeners | server/src/main/java/org/opensearch/tracing/opentelemetry/OpenTelemetryService.java:216-233 | the loop calls exactly the hooks Dispatch lists, in that order |
| OpenTelemetryService.GetInstanceStep | server/src/main/java/org/opensearch/tracing/opentelemetry/OpenTelemetryService.java:203-213 | a stored INSTANCE is returned and kept. Otherwise a null argument throws NullPointer and stores nothing. An unmodifiable argument is stored and then throws UnsupportedOperation from add. A growable argument is stored with JavaThreadEventListener.INSTANCE appended and returned |
| OpenTelemetryService.InitialisedOnce | server/src/main/java/org/opensearch/tracing/opentelemetry/OpenTelemetryService.java:204-212 | after a first call that stores a list, every later call returns that list and changes nothing, whatever its argument |
| OpenTelemetryService.RegisteredEndsWithJavaThread | server/src/main/java/org/opensearch/tracing/opentelemetry/OpenTelemetryService.java:207-208 | the stored list is the argument followed by JavaThreadEventListener.INSTANCE |
| OpenTelemetryService.TaskEventListeners.constructor | server/src/main/java/org/opensearch/tracing/opentelemetry/OpenTelemetryService.java:202 | INSTANCE starts null |
| OpenTelemetryService.TaskEventListeners.GetInstance | server/src/main/java/org/opensearch/tracing/opentelemetry/OpenTelemetryService.java:203-213 | the new INSTANCE and the result or exception are GetInstanceStep of the old INSTANCE |
| OpenTelemetryService.CallFunctionAndStartSpan | server/src/main/java/org/opensearch/tracing/opentelemetry/OpenTelemetryService.java:110-127 | as written. A failing createBaggage throws before any hook runs, and a null registry throws NullPointer. Otherwise the function is applied exactly once, every onStart hook comes before it and every onEnd hook after it, and its outcome is returned unchanged |
| OpenTelemetryService.SpanTraceHooks | server/src/main/java/org/opensearch/tracing/opentelemetry/OpenTelemetryService.java:120-125 | in a start-apply-end trace, onStart reaches the listeners applicable to "-Start" unless the start context is root. Likewise onEnd reaches those applicable to "-End" unless the end context is root |
| OpenTelemetryService.RootSpanSkipsEndHooks | server/src/main/java/org/opensearch/tracing/opentelemetry/OpenTelemetryService.java:116-126 | as written, a span opened from the root context runs the "-Start" hooks and no "-End" hook at all |
| OpenTelemetryService.RootSpanLeavesJavaThreadStarted | server/src/main/java/org/opensearch/tracing/opentelemetry/OpenTelemetryService.java:120-125 | concrete case: with [JavaThreadEventListener] registered and a root caller, onStart reaches position 0 and onEnd is never called |
| OpenTelemetryService.EndHooksSeeCallerBaggage | server/src/main/java/org/opensearch/tracing/opentelemetry/OpenTelemetryService.java:116-126 | as written, the "-Start" hooks see the span's new baggage and the "-End" hooks see the caller's |
| OpenTelemetryService.CallFunctionAndStartSpanCorrected | server/src/main/java/org/opensearch/tracing/opentelemetry/OpenTelemetryService.java:116-126 | with the end dispatch inside the span's scopes: the same error paths. Otherwise the function is applied exactly once, with every onStart hook before it and every onEnd hook after it, and its outcome is returned unchanged |
| OpenTelemetryService.CorrectedSpanEndsEveryStart | server/src/main/java/org/opensearch/tracing/opentelemetry/OpenTelemetryService.java:116-126 | corrected, from any caller, onStart and onEnd reach exactly the listeners applicable to their events, and both see the span's baggage |
| OpenTelemetryService.EndHooksWhetherOrNotApplyThrows | server/src/main/java/org/opensearch/tracing/opentelemetry/OpenTelemetryService.java:122-125 | the finally block gives the same trace whether or not the function throws |
| OpenTelemetryService.CloseScope | server/src/main/java/org/opensearch/tracing/opentelemetry/OpenTelemetryService.java:159-169 | closeCurrentScope: two actions, the elapsed-time recording and then span.end. The recording's attribute keys are exactly the baggage's keys, and with distinct keys the attributes are the baggage itself |
| OpenTelemetryService.WrapAndCallFunction | server/src/main/java/org/opensearch/tracing/opentelemetry/OpenTelemetryService.java:130-169 | once createBaggage succeeds, the trace always ends with closeCurrentScope: the elapsed time recorded under the span's baggage, then span.end. Every hook and the call come before it. With a registry, the function is applied exactly once, every onStart hook before it and every onEnd hook after it. The outcome is NullPointer for a null registry, and otherwise the original function's result or exception unchanged |
| OpenTelemetryService.WrappedEndHooksOnlyOnReturn | server/src/main/java/org/opensearch/tracing/opentelemetry/OpenTelemetryService.java:139-148 | onStart reaches every listener applicable to "-Start". onEnd reaches those applicable to "-End" when the function returns, and none when it throws |
| SpanBaggage.CreateBaggage | server/src/main/java/org/opensearch/tracing/opentelemetry/OpenTelemetryService.java:181-196 | it succeeds if and only if every marker key of the current baggage has a readable number. Otherwise it throws IndexOutOfBounds or NumberFormat. On success, "SpanName_"+level maps to the span name. Its keys are those of the attributes, the current baggage and the global attributes, plus the marker, with no key twice. Every other key takes the global value, else the current one, else the attribute's |
| SpanBaggage.LevelFold | server/src/main/java/org/opensearch/tracing/opentelemetry/OpenTelemetryService.java:186-192 | the forEach loop over the current baggage; started from an int level, a level it ends with is an int |
| SpanBaggage.LevelFoldSucceeds | server/src/main/java/org/opensearch/tracing/opentelemetry/OpenTelemetryService.java:187-192 | the forEach over the current baggage completes if and only if every marker key's number can be read |
| SpanBaggage.LevelFoldIsLastMarker | server/src/main/java/org/opensearch/tracing/opentelemetry/OpenTelemetryService.java:186-192 | when every marker parses, the level is the starting one without marker keys, and otherwise one more (in int arithmetic) than the number of the last marker key in iteration order |
| SpanBaggage.LastMarkerExists | server/src/main/java/org/opensearch/tracing/opentelemetry/OpenTelemetryService.java:189 | there is a last marker key exactly when some key starts with "SpanName_", and it is one of the keys |
| SpanBaggage.FoldFailure | server/src/main/java/org/opensearch/tracing/opentelemetry/OpenTelemetryService.java:190 | the loop throws only what split(...)[1] and parseInt throw |
| SpanBaggage.RootSpanLevel | server/src/main/java/org/opensearch/tracing/opentelemetry/OpenTelemetryService.java:186-194 | a parent baggage without marker keys gives "SpanName_0" ↦ spanName |
| SpanBaggage.NestedSpanLevel | server/src/main/java/org/opensearch/tracing/opentelemetry/OpenTelemetryService.java:186-194 | a span created under a baggage at level L is at level L+1 itself (in int arithmetic), when its marker key is new and neither the attributes nor the global attributes hold a marker |
| SpanBaggage.MarkerKey | server/src/main/java/org/opensearch/tracing/opentelemetry/OpenTelemetryService.java:194 | the key written for a level starts with "SpanName_" |
| SpanBaggage.MarkerNumberOfMarkerKey | server/src/main/java/org/opensearch/tracing/opentelemetry/OpenTelemetryService.java:190-194 | the marker written for an int level reads back as that level |
| SpanBaggage.BareMarkerIsOutOfBounds | server/src/main/java/org/opensearch/tracing/opentelemetry/OpenTelemetryService.java:189-190 | the key "SpanName_" splits into one piece, so [1] throws IndexOutOfBounds |
| SpanBaggage.SecondField | server/src/main/java/org/opensearch/tracing/opentelemetry/OpenTelemetryService.java:190 | [1] of the split can throw only IndexOutOfBounds |
| SpanBaggage.MarkerNumber | server/src/main/java/org/opensearch/tracing/opentelemetry/OpenTelemetryService.java:190 | a marker number that parses is an int |
| SpanBaggage.Fields | server/src/main/java/org/opensearch/tracing/opentelemetry/OpenTelemetryService.java:190 | the pieces between the '_' characters: at least one, none containing '_' |
| SpanBaggage.Split | server/src/main/java/org/opensearch/tracing/opentelemetry/OpenTelemetryService.java:190 | split("_") of a string without '_' is that string alone |
| SpanBaggage.JoinFields | server/src/main/java/org/opensearch/tracing/opentelemetry/OpenTelemetryService.java:190 | the '_'-separated fields, joined back with '_', give the string again |
| JavaText.ParseInt | server/src/main/java/org/opensearch/tracing/opentelemetry/OpenTelemetryService.java:190 | Integer.parseInt yields an int or throws NumberFormat, and always throws for the empty string |
| JavaText.ParseIntToString | server/src/main/java/org/opensearch/tracing/opentelemetry/OpenTelemetryService.java:190-194 | parsing the decimal text of an int gives that int back |
| JavaText.Wrap32 | server/src/main/java/org/opensearch/tracing/opentelemetry/OpenTelemetryService.java:190 | `+ 1` on an int wraps: the result is an int, congruent to the sum modulo 2^32, and equal to it when there is no overflow |
| JavaText.IntToString | server/src/main/java/org/opensearch/tracing/opentelemetry/DiskStatsEventListener.java:114 | String.valueOf of a long is non-empty and contains no '_' |
| Common.Put | server/src/main/java/org/opensearch/tracing/opentelemetry/OpenTelemetryService.java:194 | a builder's put: the key maps to the new value, every other key keeps its value, a new key is appended, and distinct keys stay distinct |
| Common.PutAll | server/src/main/java/org/opensearch/tracing/opentelemetry/OpenTelemetryService.java:185-193 | putting every entry in order: the keys are the union, and a key takes its last value among the new entries, else its old value |
| Common.BaggageAttributes | server/src/main/java/org/opensearch/tracing/opentelemetry/JavaThreadEventListener.java:52-60 | copying the baggage into an attributes builder keeps its keys, and keeps entries whose keys are distinct unchanged |
| ThreadStacks.Push | server/src/main/java/org/opensearch/tracing/opentelemetry/JavaThreadEventListener.java:86-89 | onStart gets or creates the thread's stack and pushes one measurement: depth grows by one and every other thread is unchanged |
| ThreadStacks.Top | server/src/main/java/org/opensearch/tracing/opentelemetry/JavaThreadEventListener.java:93 | peek gives the top exactly when the stack is non-empty. It throws NullPointer with no stack and EmptyStack on an empty one |
| ThreadStacks.End | server/src/main/java/org/opensearch/tracing/opentelemetry/JavaThreadEventListener.java:92-96 | onEnd's peek then pop: it succeeds exactly when the thread's stack is non-empty. It throws EmptyStack for an empty stack and NullPointer for none. Otherwise it gives the top measurement and the popped registry |
| ThreadStacks.Pop | server/src/main/java/org/opensearch/tracing/opentelemetry/JavaThreadEventListener.java:95 | pop removes the top; the key stays and the other threads are unchanged |
| ThreadStacks.PushThenEnd | server/src/main/java/org/opensearch/tracing/opentelemetry/JavaThreadEventListener.java:86-96 | LIFO: an onEnd right after an onStart records from the measurement just pushed and restores the stack |
| ThreadStacks.EndIsolation | server/src/main/java/org/opensearch/tracing/opentelemetry/JavaThreadEventListener.java:92-96 | an onEnd leaves every other thread's stack unchanged |
| ThreadStacks.EndUnderflow | server/src/main/java/org/opensearch/tracing/opentelemetry/JavaThreadEventListener.java:93 | onEnd with no stack throws NullPointer, and with an empty stack throws EmptyStack |
| ThreadStacks.NestedStartsAndEnds | server/src/main/java/org/opensearch/tracing/opentelemetry/JavaThreadEventListener.java:87-95 | after n onStart calls and n onEnd calls on one thread, the ends take the measurements in reverse order and the stack is as before, its key kept |
| JavaThreadListener.EndRecording | server/src/main/java/org/opensearch/tracing/opentelemetry/JavaThreadEventListener.java:49-81 | four recordings, to CPU time, heap, elapsed time and CPU utilisation in that order, all under the baggage's attributes. CPU time, heap and utilisation get the formulas' figures for (measurement, end reading, duration), and the elapsed time gets endTime − startTime. No blocked or waited meter is ever recorded |
| JavaThreadListener.Recordings | server/src/main/java/org/opensearch/tracing/opentelemetry/JavaThreadEventListener.java:62-80 | the four recordings, to CPU time, heap, elapsed time and CPU utilisation in that order, under the same attributes. Each figure goes to its own meter, and the duration goes to the elapsed-time meter |
| JavaThreadListener.JavaThreadEventListener.constructor | server/src/main/java/org/opensearch/tracing/opentelemetry/JavaThreadEventListener.java:84 | threadCPUUsage starts empty |
| JavaThreadListener.JavaThreadEventListener.OnStart | server/src/main/java/org/opensearch/tracing/opentelemetry/JavaThreadEventListener.java:86-89 | the registry after onStart is Push of a measurement started now |
| JavaThreadListener.JavaThreadEventListener.OnEnd | server/src/main/java/org/opensearch/tracing/opentelemetry/JavaThreadEventListener.java:92-96 | on underflow it throws and changes neither the registry nor the sink. Otherwise the sink gains EndRecording of the top measurement and the registry is popped |
| JavaThreadListener.JavaThreadEventListener.IsApplicable | server/src/main/java/org/opensearch/tracing/opentelemetry/JavaThreadEventListener.java:99-101 | always true |
| DiskStatsListener.NewMeasurement | server/src/main/java/org/opensearch/tracing/opentelemetry/DiskStatsEventListener.java:94-119 | the native id is the first lookup, else the lookup after the refresh. When both give -1 the constructor returns early: the native id, thread state and start readings stay null. Otherwise the three start readings are taken for the native id |
| DiskStatsListener.RecordingAttributes | server/src/main/java/org/opensearch/tracing/opentelemetry/DiskStatsEventListener.java:195-205 | the baggage's attributes, plus threadName only when there is a thread state; every other key is as in the baggage |
| DiskStatsListener.CpuRecords | server/src/main/java/org/opensearch/tracing/opentelemetry/DiskStatsEventListener.java:209-240 | the four CPU and paging meters are recorded only when the end cpu reading is not empty |
| DiskStatsListener.IoRecords | server/src/main/java/org/opensearch/tracing/opentelemetry/DiskStatsEventListener.java:241-270 | the nine IO meters are recorded only when the end io reading is not empty and calculateIOMetrics is not null |
| DiskStatsListener.IoMetricRecords | server/src/main/java/org/opensearch/tracing/opentelemetry/DiskStatsEventListener.java:250-269 | nine recordings to the nine IO meters, under the same attributes |
| DiskStatsListener.SchedRecords | server/src/main/java/org/opensearch/tracing/opentelemetry/DiskStatsEventListener.java:271-277 | the three sched meters receive 0, and only when the end sched reading is not empty |
| DiskStatsListener.ThreadRecords | server/src/main/java/org/opensearch/tracing/opentelemetry/DiskStatsEventListener.java:278-289 | the five thread-state meters (heap allocation rate, blocked count and time, waited count and time) are recorded only when there is a thread state |
| DiskStatsListener.DomainRecords | server/src/main/java/org/opensearch/tracing/opentelemetry/DiskStatsEventListener.java:209-289 | the meters recorded are exactly those of the domains whose gate holds, all under the same attributes |
| DiskStatsListener.EndRecording | server/src/main/java/org/opensearch/tracing/opentelemetry/DiskStatsEventListener.java:193-307 | the gated recordings, all under the recording attributes, then exactly one reset of the disk meters, whatever the domains emitted. The end readings are taken for the measurement's native id |
| DiskStatsListener.UnknownThreadHasNoThreadState | server/src/main/java/org/opensearch/tracing/opentelemetry/DiskStatsEventListener.java:100-108 | a thread whose native id is never found gets no thread-state recordings and no threadName attribute |
| DiskStatsListener.DiskStatsEventListener.constructor | server/src/main/java/org/opensearch/tracing/opentelemetry/DiskStatsEventListener.java:310 | threadDiskIOUsage starts empty |
| DiskStatsListener.DiskStatsEventListener.OnStart | server/src/main/java/org/opensearch/tracing/opentelemetry/DiskStatsEventListener.java:313-316 | the registry after onStart is Push of NewMeasurement |
| DiskStatsListener.DiskStatsEventListener.OnEnd | server/src/main/java/org/opensearch/tracing/opentelemetry/DiskStatsEventListener.java:319-323 | on underflow it throws and changes nothing. Otherwise the sink gains EndRecording of the top measurement and the registry is popped |
| DiskStatsListener.DiskStatsEventListener.IsApplicable | server/src/main/java/org/opensearch/tracing/opentelemetry/DiskStatsEventListener.java:326-328 | always true |
| NetworkRecording.InRecords | server/src/main/java/org/opensearch/tracing/opentelemetry/NetworkStatsEventListener.java:78-84 | five inbound recordings under the same attributes; as written the v6 drop-rate meter gets the v6 packet rate |
| NetworkRecording.OutRecords | server/src/main/java/org/opensearch/tracing/opentelemetry/NetworkStatsEventListener.java:86-92 | five outbound recordings under the same attributes, with the same v6 drop-rate choice |
| NetworkRecording.SummaryRecords | server/src/main/java/org/opensearch/tracing/opentelemetry/NetworkStatsEventListener.java:78-92 | each direction is recorded only when its summary is not null; inbound comes first |
| NetworkRecording.RecordAndReset | server/src/main/java/org/opensearch/tracing/opentelemetry/NetworkStatsEventListener.java:78-93 | the summary recordings followed by exactly one reset of the network meters |
| NetworkStatsListener.EndRecording | server/src/main/java/org/opensearch/tracing/opentelemetry/NetworkStatsEventListener.java:41-95 | nothing at all, and no reset, unless all three end readings are non-null. Otherwise both calculators run on (endTime, startTime, end readings, start readings), each non-null summary is recorded, then one reset |
| NetworkStatsListener.NetworkStatsEventListener.constructor | server/src/main/java/org/opensearch/tracing/opentelemetry/NetworkStatsEventListener.java:25 | networkStats starts empty |
| NetworkStatsListener.NetworkStatsEventListener.OnStart | server/src/main/java/org/opensearch/tracing/opentelemetry/NetworkStatsEventListener.java:103-106 | the registry after onStart is Push of a measurement holding the readings taken now |
| NetworkStatsListener.NetworkStatsEventListener.OnEnd | server/src/main/java/org/opensearch/tracing/opentelemetry/NetworkStatsEventListener.java:109-113 | on underflow it throws and changes nothing. Otherwise the sink gains EndRecording of the top measurement and the registry is popped |
| NetworkStatsListener.NetworkStatsEventListener.IsApplicable | server/src/main/java/org/opensearch/tracing/opentelemetry/NetworkStatsEventListener.java:116-118 | always true |
| NetworkTracingService.TickRecords | server/src/main/java/org/opensearch/tracing/opentelemetry/NetworkTracingService.java:119-157 | nothing unless all three previous maps are non-empty. Otherwise both calculators run on (new timestamp, old timestamp, current maps, previous maps), each non-null summary is recorded, and there is exactly one reset |
| NetworkTracingService.FirstTickRecordsNothing | server/src/main/java/org/opensearch/tracing/opentelemetry/NetworkTracingService.java:119 | the first tick after construction records nothing, whatever it observes |
| NetworkTracingService.SecondTickGate | server/src/main/java/org/opensearch/tracing/opentelemetry/NetworkTracingService.java:119 | the second tick resets the meters exactly when every map of the first observation is non-empty |
| NetworkTracingService.NetworkTracingService.constructor | server/src/main/java/org/opensearch/tracing/opentelemetry/NetworkTracingService.java:55-71 | six empty maps, both timestamps 0, and one fixed-rate job of period 5 |
| NetworkTracingService.NetworkTracingService.ShutDown | server/src/main/java/org/opensearch/tracing/opentelemetry/NetworkTracingService.java:73-81 | the scheduler is shut down and nothing else changes |
| NetworkTracingService.NetworkTracingService.Rotate | server/src/main/java/org/opensearch/tracing/opentelemetry/NetworkTracingService.java:101-117 | each old map takes the current one's contents and each current map the observation's; oldkvTimestamp takes kvTimestamp and kvTimestamp takes now |
| NetworkTracingService.NetworkTracingService.Tick | server/src/main/java/org/opensearch/tracing/opentelemetry/NetworkTracingService.java:92-158 | the rotation, and the sink gains TickRecords of the rotated state |
| DiskSampling.EntryRecords | server/src/main/java/org/opensearch/tracing/opentelemetry/DiskStatsTracingService.java:85-96 | one disk gives utilization, await and serviceRate recordings of its figures, all under the same attributes, then one reset |
| DiskSampling.DiskRecords | server/src/main/java/org/opensearch/tracing/opentelemetry/DiskStatsTracingService.java:84-97 | four events per disk |
| DiskSampling.DiskRecordsBlock | server/src/main/java/org/opensearch/tracing/opentelemetry/DiskStatsTracingService.java:84-97 | disk k's recordings are the k-th block of four, in the calculator's order |
| DiskSampling.DiskRecordsResets | server/src/main/java/org/opensearch/tracing/opentelemetry/DiskStatsTracingService.java:96 | the meters are reset exactly once per disk |
| DiskSampling.TickEvents | server/src/main/java/org/opensearch/tracing/opentelemetry/DiskStatsTracingService.java:76-98 | a null calculator result records nothing; otherwise there are four events per disk |
| DiskSampling.RecordDiskMetrics | server/src/main/java/org/opensearch/tracing/opentelemetry/DiskTracingService.java:117-130 | the loop appends DiskRecords of the calculator's entries to the sink |
| DiskStatsTracingService.DiskStatsTracingService.constructor | server/src/main/java/org/opensearch/tracing/opentelemetry/DiskStatsTracingService.java:42-49 | empty maps, timestamps 0, and exactly one fixed-rate job of period 5 |
| DiskStatsTracingService.DiskStatsTracingService.ShutDown | server/src/main/java/org/opensearch/tracing/opentelemetry/DiskStatsTracingService.java:50-58 | the scheduler is shut down and nothing else changes |
| DiskStatsTracingService.DiskStatsTracingService.Tick | server/src/main/java/org/opensearch/tracing/opentelemetry/DiskStatsTracingService.java:68-99 | oldMetricsPerDisk takes the previous metricsPerDisk, metricsPerDisk takes the observation, and the timestamps shift. The sink gains TickEvents |
| DiskTracingService.NewScheduler | server/src/main/java/org/opensearch/tracing/opentelemetry/DiskTracingService.java:75-76 | a fresh live scheduler becomes current; the running jobs stay as they were |
| DiskTracingService.Schedule | server/src/main/java/org/opensearch/tracing/opentelemetry/DiskTracingService.java:78 | one new running job on the current scheduler becomes diskMetricJob |
| DiskTracingService.Cancel | server/src/main/java/org/opensearch/tracing/opentelemetry/DiskTracingService.java:71 | the job stops running and nothing else changes |
| DiskTracingService.InitStep | server/src/main/java/org/opensearch/tracing/opentelemetry/DiskTracingService.java:54-62 | one consumer is registered either way; with the flag off nothing else changes |
| DiskTracingService.InitFromInitial | server/src/main/java/org/opensearch/tracing/opentelemetry/DiskTracingService.java:54-62 | from the new service: with the flag on, one scheduler and one running job; with it off, no scheduler and no job. One consumer either way |
| DiskTracingService.ShutDownStep | server/src/main/java/org/opensearch/tracing/opentelemetry/DiskTracingService.java:83-91 | throws NullPointer exactly when there is no scheduler; otherwise shuts the current scheduler down |
| DiskTracingService.ToggleStep | server/src/main/java/org/opensearch/tracing/opentelemetry/DiskTracingService.java:68-82 | as written. With the flag on it throws NullPointer exactly when there is no job, and otherwise the newly scheduled job becomes diskMetricJob. The state is always well formed afterwards |
| DiskTracingService.ScheduleFresh | server/src/main/java/org/opensearch/tracing/opentelemetry/DiskTracingService.java:74-78 | a null or shut-down scheduler is replaced, then one new running job is scheduled on the current scheduler |
| DiskTracingService.ToggleOnAfterDisabledInit | server/src/main/java/org/opensearch/tracing/opentelemetry/DiskTracingService.java:70 | init with the flag off, then toggle(true), throws NullPointer |
| DiskTracingService.ToggleOnLeavesOneJob | server/src/main/java/org/opensearch/tracing/opentelemetry/DiskTracingService.java:69-78 | a toggle(true) that succeeds leaves exactly one running job, the new one, on the current scheduler |
| DiskTracingService.ToggleOffStopsAll | server/src/main/java/org/opensearch/tracing/opentelemetry/DiskTracingService.java:79-84 | toggle(false) throws exactly when there is no scheduler, and otherwise leaves no running job |
| DiskTracingService.ToggleStepCorrected | server/src/main/java/org/opensearch/tracing/opentelemetry/DiskTracingService.java:70-72 | with the `&&` guard, toggle(true) never throws; toggle(false) throws only without a scheduler |
| DiskTracingService.CorrectedToggleOnLeavesOneJob | server/src/main/java/org/opensearch/tracing/opentelemetry/DiskTracingService.java:69-78 | with the corrected guard, toggle(true) always succeeds and leaves exactly one running job |
| DiskTracingService.DiskTracingService.constructor | server/src/main/java/org/opensearch/tracing/opentelemetry/DiskTracingService.java:47-52 | no scheduler, no job, empty maps and timestamps 0 |
| DiskTracingService.DiskTracingService.Init | server/src/main/java/org/opensearch/tracing/opentelemetry/DiskTracingService.java:54-62 | the new state is InitStep of the old |
| DiskTracingService.DiskTracingService.ToggleDiskStatsMetrics | server/src/main/java/org/opensearch/tracing/opentelemetry/DiskTracingService.java:68-82 | it throws and changes nothing, or it moves to the new state, exactly as ToggleStep says |
| DiskTracingService.DiskTracingService.ShutDown | server/src/main/java/org/opensearch/tracing/opentelemetry/DiskTracingService.java:83-91 | as ShutDownStep says |
| DiskTracingService.DiskTracingService.Tick | server/src/main/java/org/opensearch/tracing/opentelemetry/DiskTracingService.java:101-132 | the readings and timestamps rotate, the scheduler and job state is unchanged, and the sink gains TickEvents |
| MountedStatsTracingService.GaugeAttributesCarryPartition | server/src/main/java/org/opensearch/tracing/opentelemetry/MountedStatsTracingService.java:90-95 | a gauge's attributes are the baggage's, plus MountPoint and DevicePartition from its partition |
| MountedStatsTracingService.GaugesFollowPartitions | server/src/main/java/org/opensearch/tracing/opentelemetry/MountedStatsTracingService.java:89-111 | one gauge per partition, in order. Each reads its partition's mount point and records under that partition's attributes |
| MountedStatsTracingService.NewKeys | server/src/main/java/org/opensearch/tracing/opentelemetry/MountedStatsTracingService.java:124-128 | one new key per observed entry, in iteration order |
| MountedStatsTracingService.ToggleTwiceDuplicates | server/src/main/java/org/opensearch/tracing/opentelemetry/MountedStatsTracingService.java:114-128 | PartitionKey has no equals, so toggling on twice with the same observation adds its keys twice. There are then two gauges for each observed mount point, and the gauge count grows by the observation's size with every reload |
| MountedStatsTracingService.MountedStatsTracingService.constructor | server/src/main/java/org/opensearch/tracing/opentelemetry/MountedStatsTracingService.java:42-47 | no partitions and three empty gauge lists |
| MountedStatsTracingService.MountedStatsTracingService.CloseAll | server/src/main/java/org/opensearch/tracing/opentelemetry/MountedStatsTracingService.java:74 | the gauges of one list are closed in order |
| MountedStatsTracingService.MountedStatsTracingService.StopGauges | server/src/main/java/org/opensearch/tracing/opentelemetry/MountedStatsTracingService.java:71-85 | every gauge of the three lists is closed, list by list, and the three lists end empty |
| MountedStatsTracingService.MountedStatsTracingService.InitMetricGauges | server/src/main/java/org/opensearch/tracing/opentelemetry/MountedStatsTracingService.java:87-112 | each list gains exactly GaugesFor of the partitions, one gauge per partition |
| MountedStatsTracingService.MountedStatsTracingService.AddPartitionGauges | server/src/main/java/org/opensearch/tracing/opentelemetry/MountedStatsTracingService.java:90-110 | one iteration appends one gauge of each kind for the partition |
| MountedStatsTracingService.MountedStatsTracingService.LoadMountedPartitions | server/src/main/java/org/opensearch/tracing/opentelemetry/MountedStatsTracingService.java:124-128 | the partitions gain NewKeys of the observation and nothing is removed |
| MountedStatsTracingService.MountedStatsTracingService.Init | server/src/main/java/org/opensearch/tracing/opentelemetry/MountedStatsTracingService.java:49-58 | one consumer is registered either way. Partitions are loaded and gauges built only with the flag on |
| MountedStatsTracingService.MountedStatsTracingService.ToggleMountedStatsMetrics | server/src/main/java/org/opensearch/tracing/opentelemetry/MountedStatsTracingService.java:60-69 | every old gauge is closed either way. On, each list is then exactly one gauge per known partition. Off, all lists are empty |

## Left out

- Meter names and the histogram objects of the meters classes. Each meter is one constructor; `reset()` is one `Reset` event.
- Floating-point arithmetic:
  - the CPU-time, heap and CPU-utilisation formulas of `JavaThreadEventListener.java:62-80`;
  - the `/1_000_000.` conversion;
  - the calculators of `ThreadCPUMetricsGenerator`, `ThreadDiskIOMetricGenerator`, `NetworkMetricsCalculator` and `DiskMetricsCalculator`.
  
  All of these are functions passed in, and values are `real`.
- JavaThreadListener.EndRecording: the three CPU and heap figures come from a `formulas` parameter, so a division by a zero duration is not modelled.
- The `System.out` printing and the `mapOfValues` map of `DiskStatsEventListener.endRecording`: they are output only. The same goes for the commented-out code of its constructor.
- The clock. `System.currentTimeMillis()` is a `now` or `endTime` argument. The elapsed-time value that `closeCurrentScope` records is not modelled: the recording carries only its attributes.
- The `endTime` and `duration` fields that `endRecording` assigns. No other code reads them.
- Concurrency:
  - the registries are plain `HashMap`s shared between threads;
  - ticks run on scheduler threads;
  - `INSTANCE` is volatile with double-checked locking.
  
  All calls are modelled as sequential.
- The scheduler's timing and `awaitTermination` with its `shutdownNow` and interrupt path. Shutting a scheduler down stops its periodic jobs at once in the model.
- The baggage of a scheduler thread (`Baggage.current()` inside `Scheduled.run`) is a parameter.
- OpenTelemetry's own `Baggage`, `Attributes`, `Span`, `Scope` and `Context`:
  - The built `Baggage` and `Attributes` iterate their keys in the order the model keeps, which is insertion order with a replaced key staying in place. The real library orders keys differently; with sorted keys, "SpanName_10" comes before "SpanName_9". So the "last marker" of `createBaggage` follows the model's order.
  - Values are strings; `v.toString()` is not modelled.
- Span attributes, `span.setAllAttributes`, and the `OTelContextPreservingActionListener` wrapping of `callFunctionAndStartSpan` (`OpenTelemetryService.java:117-119`).
- The overload of `callFunctionAndStartSpan` without attributes (`OpenTelemetryService.java:105-108`). It is the modelled one with empty attributes.
- WrapAndCallFunction: it does not model the restoration of the caller's context and baggage after the call (`OpenTelemetryService.java:149-154`), because the next call's context is an argument anyway.
- OpenTelemetryService.CallTaskEventListeners: it returns the hooks it calls rather than running the listener classes. Composing a dispatch with the listeners' `OnStart`/`OnEnd` is left to the caller, and hooks are taken not to throw inside the loop.
- JavaText.ParseInt: it accepts only ASCII digits, where `Integer.parseInt` also accepts other Unicode decimal digits.
- Observers that return `null`. The model takes every observer's result to be non-null at these call sites:
  - `isEmpty()` in `DiskStatsEventListener.java:210`, `:243` and `:272`;
  - `putAll` in `DiskTracingService.java:105`, `DiskStatsTracingService.java:72` and `NetworkTracingService.java:104`, `:109` and `:114`;
  - `entrySet()` in `MountedStatsTracingService.java:125-126`.

  A null there throws NullPointerException, and inside a fixed-rate tick that ends the job.
- The disk observers' `Map<String, Object>` values are modelled as integers.
- The iteration order of `partitionKeyFileMap`. It is a `ConcurrentHashMap` whose `PartitionKey` keys hash by identity (`MountedStatsTracingService.java:43`, `:89`), so the Java order is unspecified. The model fixes one order: each new key is appended at the end of `partitions`. The gauges are then built and closed in that order (InitMetricGauges, GaugesFollowPartitions, ToggleMountedStatsMetrics).
- The `File` space queries behind the mounted-partition gauges. A gauge is the kind, the partition and the baggage it was built under. Its callback is never run, and its attributes are derived from those inputs.
- The static singletons (`getInstance()` of the services) and the `TracingServiceSettings` plumbing. A flag is a boolean argument, and registering a consumer increments a counter.
- The static initialiser of `OpenTelemetryService` (SDK, exporter and meter setup) and `OtelService`: these are library wiring.

## Findings

| source | as written | input that shows it | evidently intended | confidence | as-written member | corrected member |
|---|---|---|---|---|---|---|
| server/src/main/java/org/opensearch/tracing/opentelemetry/OpenTelemetryService.java:116-126 | `callFunctionAndStartSpan` dispatches "-End" in the `finally` block, after try-with-resources has already closed the span's scopes. From a root-context caller, `callTaskEventListeners` then returns at once. Otherwise the end hooks see the caller's baggage | a root caller with `[JavaThreadEventListener]` registered: `onStart` runs and `onEnd` never does, so the thread's measurement stack only grows | the end hooks run from inside the span's scopes, as `wrapAndCallFunction` does, so every start gets its end | not executed; high that it differs from the start/end pairing the listeners rely on | OpenTelemetryService.RootSpanLeavesJavaThreadStarted | OpenTelemetryService.CorrectedSpanEndsEveryStart |
| server/src/main/java/org/opensearch/tracing/opentelemetry/DiskTracingService.java:70 | the guard `diskMetricJob != null \|\| !diskMetricJob.isDone() \|\| !diskMetricJob.isCancelled()` evaluates `diskMetricJob.isDone()` exactly when the job is null | `init` with the disk flag off, then `toggleDiskStatsMetrics(true)`: NullPointerException, and no job is ever scheduled | `diskMetricJob != null && !diskMetricJob.isDone() && !diskMetricJob.isCancelled()`: cancel only a job that is still running | not executed; high | DiskTracingService.ToggleOnAfterDisabledInit | DiskTracingService.CorrectedToggleOnLeavesOneJob |

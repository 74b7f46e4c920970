/** OpenTelemetryService: which thread pools are traced, the one-time
    registration of the task event listeners, the fan-out of a start or end
    event to them, and the order in which the two span wrappers run the
    hooks, the wrapped call and the closing of the span. */
module OpenTelemetryService {
  import opened Common
  import opened SpanBaggage

  /** ThreadPool.Names.GENERIC, ThreadPool.Names.SEARCH and "transport". */
  const AllowedThreadPools: seq<string> := ["generic", "search", "transport"]

  function IsThreadPoolAllowed(threadPoolName: string): (r: bool)
    ensures r <==> threadPoolName == "generic" || threadPoolName == "search" || threadPoolName == "transport"
  {
    threadPoolName in AllowedThreadPools
  }

  /** A TaskEventListener: one of the three listeners of this package, whose
      isApplicable is always true, or another one, identified by number. */
  datatype Listener = JavaThread | DiskStats | NetworkStats | Other(id: nat)

  /** The isApplicable of the listeners outside the model. */
  type Applicability = (nat, string, string) -> bool

  function IsApplicable(l: Listener, others: Applicability, operationName: string, eventName: string): (r: bool)
    ensures !l.Other? ==> r
  {
    match l
    case Other(id) => others(id, operationName, eventName)
    case _ => true
  }

  /** The current OpenTelemetry context, as far as the hooks can tell:
      whether it is the root context, and the current baggage. */
  datatype Context = Context(isRoot: bool, baggage: Entries)

  datatype Hook = OnStart | OnEnd

  /** One hook called on the listener at a position of the list, with the
      baggage current at the time. */
  datatype Invocation = Invocation(position: nat, listener: Listener, hook: Hook, operationName: string,
                                   eventName: string, threadId: int, baggage: Entries)

  /** The for-loop of callTaskEventListeners over a listener list. */
  function Fanout(listeners: seq<Listener>, others: Applicability, startEvent: bool, operationName: string,
                  eventName: string, threadId: int, baggage: Entries): (invs: seq<Invocation>)
    ensures |invs| <= |listeners|
    ensures forall j :: 0 <= j < |invs| ==>
      && invs[j].position < |listeners|
      && invs[j].listener == listeners[invs[j].position]
      && IsApplicable(invs[j].listener, others, operationName, eventName)
      && invs[j].hook == (if startEvent then OnStart else OnEnd)
      && invs[j].operationName == operationName && invs[j].eventName == eventName
      && invs[j].threadId == threadId && invs[j].baggage == baggage
    ensures forall j, j' :: 0 <= j < j' < |invs| ==> invs[j].position < invs[j'].position
  {
    if listeners == [] then []
    else
      var n := |listeners| - 1;
      var l := listeners[n];
      var front := Fanout(listeners[..n], others, startEvent, operationName, eventName, threadId, baggage);
      if IsApplicable(l, others, operationName, eventName) then
        front + [Invocation(n, l, if startEvent then OnStart else OnEnd, operationName, eventName, threadId, baggage)]
      else front
  }

  /** callTaskEventListeners: nothing in the root context or for a null or
      empty list, otherwise the fan-out. */
  function Dispatch(startEvent: bool, operationName: string, eventName: string, threadId: int,
                    listeners: Option<seq<Listener>>, others: Applicability, ctx: Context): (invs: seq<Invocation>)
    ensures ctx.isRoot || listeners.None? || listeners.value == [] ==> invs == []
  {
    if ctx.isRoot || listeners.None? || listeners.value == [] then []
    else Fanout(listeners.value, others, startEvent, operationName, eventName, threadId, ctx.baggage)
  }

  /** The positions of the listeners an event reaches. */
  function Positions(invs: seq<Invocation>): (ps: seq<nat>)
    ensures |ps| == |invs|
    ensures forall j :: 0 <= j < |invs| ==> ps[j] == invs[j].position
  {
    seq(|invs|, j requires 0 <= j < |invs| => invs[j].position)
  }

  /** Outside the root context an event reaches the applicable listeners,
      each exactly once, in list order, with the hook the event asks for. */
  lemma DispatchReachesExactlyApplicable(startEvent: bool, operationName: string, eventName: string, threadId: int,
                                          listeners: seq<Listener>, others: Applicability, ctx: Context)
    requires !ctx.isRoot
    ensures var invs := Dispatch(startEvent, operationName, eventName, threadId, Some(listeners), others, ctx);
      && (forall k :: 0 <= k < |listeners| ==>
            (k in Positions(invs) <==> IsApplicable(listeners[k], others, operationName, eventName)))
      && (forall j, j' :: 0 <= j < j' < |invs| ==> invs[j].position < invs[j'].position)
      && (forall j :: 0 <= j < |invs| ==>
            invs[j].hook == (if startEvent then OnStart else OnEnd) && invs[j].baggage == ctx.baggage)
  {
    if listeners != [] {
      FanoutPositions(listeners, others, startEvent, operationName, eventName, threadId, ctx.baggage);
    }
    ApplicableMembership(listeners, others, operationName, eventName);
  }

  /** The listeners of this package are always reached outside the root
      context. */
  lemma PackageListenersAlwaysReached(startEvent: bool, operationName: string, eventName: string, threadId: int,
                                      listeners: seq<Listener>, others: Applicability, ctx: Context, k: nat)
    requires !ctx.isRoot && k < |listeners| && !listeners[k].Other?
    ensures k in Positions(Dispatch(startEvent, operationName, eventName, threadId, Some(listeners), others, ctx))
  {
    DispatchReachesExactlyApplicable(startEvent, operationName, eventName, threadId, listeners, others, ctx);
  }

  /** The loop itself: returns the hooks it calls, in calling order. */
  method CallTaskEventListeners(startEvent: bool, operationName: string, eventName: string, threadId: int,
                                listeners: Option<seq<Listener>>, others: Applicability, ctx: Context)
    returns (invoked: seq<Invocation>)
    ensures invoked == Dispatch(startEvent, operationName, eventName, threadId, listeners, others, ctx)
  {
    invoked := [];
    if !ctx.isRoot && listeners.Some? && listeners.value != [] {
      var ls := listeners.value;
      var i := 0;
      while i < |ls|
        invariant 0 <= i <= |ls|
        invariant invoked == Fanout(ls[..i], others, startEvent, operationName, eventName, threadId, ctx.baggage)
      {
        assert ls[..i + 1][..i] == ls[..i];
        if IsApplicable(ls[i], others, operationName, eventName) {
          var hook := if startEvent then OnStart else OnEnd;
          invoked := invoked + [Invocation(i, ls[i], hook, operationName, eventName, threadId, ctx.baggage)];
        }
        i := i + 1;
      }
      assert ls[..i] == ls;
    }
  }

  /** The list handed to getInstance: its listeners, and whether add is
      supported on it. */
  datatype ListenerList = ListenerList(items: seq<Listener>, growable: bool)

  /** One getInstance call on the stored INSTANCE: the new INSTANCE and what
      the call returns or throws. */
  function GetInstanceStep(instance: Option<ListenerList>, argument: Option<ListenerList>)
    : (r: (Option<ListenerList>, Result<seq<Listener>>))
    ensures instance.Some? ==> r == (instance, Ok(instance.value.items))
    ensures instance.None? && argument.None? ==> r == (None, Err(NullPointer))
    ensures instance.None? && argument.Some? && argument.value.growable ==>
      var stored := ListenerList(argument.value.items + [JavaThread], true);
      r == (Some(stored), Ok(stored.items))
    ensures instance.None? && argument.Some? && !argument.value.growable ==>
      r == (argument, Err(UnsupportedOperation))
  {
    if instance.Some? then (instance, Ok(instance.value.items))
    else if argument.None? then (None, Err(NullPointer))
    else if !argument.value.growable then (argument, Err(UnsupportedOperation))
    else
      var stored := ListenerList(argument.value.items + [JavaThread], true);
      (Some(stored), Ok(stored.items))
  }

  /** Once a call has stored a list, every later call returns that list and
      changes nothing, whatever it is given. */
  lemma InitialisedOnce(first: Option<ListenerList>, later: seq<Option<ListenerList>>)
    requires first.Some?
    ensures var after := GetInstanceStep(None, first).0;
      after.Some? && forall i :: 0 <= i < |later| ==>
        GetInstanceStep(after, later[i]) == (after, Ok(after.value.items))
  {
  }

  /** The registered list ends with JavaThreadEventListener.INSTANCE. */
  lemma RegisteredEndsWithJavaThread(argument: seq<Listener>)
    ensures var stored := GetInstanceStep(None, Some(ListenerList(argument, true))).0.value.items;
      stored == argument + [JavaThread] && stored[|stored| - 1] == JavaThread
  {
  }

  /** TaskEventListeners and its static INSTANCE. */
  class TaskEventListeners {
    var instance: Option<ListenerList>

    constructor ()
      ensures instance == None
    {
      instance := None;
    }

    method GetInstance(argument: Option<ListenerList>) returns (r: Result<seq<Listener>>)
      modifies this
      ensures (instance, r) == GetInstanceStep(old(instance), argument)
    {
      if instance.None? {
        if argument.None? {
          return Err(NullPointer);
        }
        instance := argument;
        if !argument.value.growable {
          return Err(UnsupportedOperation);
        }
        instance := Some(ListenerList(instance.value.items + [JavaThread], true));
      }
      r := Ok(instance.value.items);
    }
  }

  /** What a span wrapper does, in order. */
  datatype Action =
    | Called(invocation: Invocation)      // a listener hook
    | Applied                             // the wrapped function ran
    | ElapsedRecorded(attributes: Entries) // TraceOperationMeters.elapsedTime
    | SpanEnded

  function Calls(invs: seq<Invocation>): (actions: seq<Action>)
    ensures |actions| == |invs|
    ensures forall j :: 0 <= j < |invs| ==> actions[j] == Called(invs[j])
  {
    seq(|invs|, j requires 0 <= j < |invs| => Called(invs[j]))
  }

  /** The positions of the listeners whose given hook appears in a trace. */
  function HookPositions(trace: seq<Action>, hook: Hook): (ps: seq<nat>)
    ensures |ps| <= |trace|
  {
    if trace == [] then []
    else
      var rest := HookPositions(trace[1..], hook);
      if trace[0].Called? && trace[0].invocation.hook == hook then [trace[0].invocation.position] + rest else rest
  }

  lemma {:induction false} HookPositionsAppend(a: seq<Action>, b: seq<Action>, hook: Hook)
    ensures HookPositions(a + b, hook) == HookPositions(a, hook) + HookPositions(b, hook)
    decreases |a|
  {
    if a != [] {
      assert (a + b)[1..] == a[1..] + b;
      HookPositionsAppend(a[1..], b, hook);
    } else {
      assert a + b == b;
    }
  }

  /** The hooks of calls that all use one hook, read back from a trace. */
  lemma {:induction false} HookPositionsOfCalls(invs: seq<Invocation>, hook: Hook)
    requires forall j :: 0 <= j < |invs| ==> invs[j].hook == hook
    ensures HookPositions(Calls(invs), hook) == Positions(invs)
    ensures forall other :: other != hook ==> HookPositions(Calls(invs), other) == []
    decreases |invs|
  {
    if invs != [] {
      assert Calls(invs)[1..] == Calls(invs[1..]);
      HookPositionsOfCalls(invs[1..], hook);
      assert Positions(invs) == [invs[0].position] + Positions(invs[1..]);
    }
  }

  /** The positions, in list order, of the listeners applicable to an event. */
  function ApplicablePositions(listeners: seq<Listener>, others: Applicability, operationName: string,
                               eventName: string): (ps: seq<nat>)
    ensures forall j :: 0 <= j < |ps| ==> ps[j] < |listeners|
  {
    if listeners == [] then []
    else
      var n := |listeners| - 1;
      ApplicablePositions(listeners[..n], others, operationName, eventName)
        + if IsApplicable(listeners[n], others, operationName, eventName) then [n] else []
  }

  /** A position is listed exactly when its listener is applicable. */
  lemma {:induction false} ApplicableMembership(listeners: seq<Listener>, others: Applicability, operationName: string,
                                                eventName: string)
    ensures forall k :: 0 <= k < |listeners| ==>
      (k in ApplicablePositions(listeners, others, operationName, eventName)
       <==> IsApplicable(listeners[k], others, operationName, eventName))
    decreases |listeners|
  {
    if listeners != [] {
      var n := |listeners| - 1;
      ApplicableMembership(listeners[..n], others, operationName, eventName);
      forall k | 0 <= k < n
        ensures listeners[..n][k] == listeners[k]
      {
      }
    }
  }

  lemma {:induction false} FanoutPositions(listeners: seq<Listener>, others: Applicability, startEvent: bool,
                                           operationName: string, eventName: string, threadId: int, baggage: Entries)
    ensures Positions(Fanout(listeners, others, startEvent, operationName, eventName, threadId, baggage))
      == ApplicablePositions(listeners, others, operationName, eventName)
    decreases |listeners|
  {
    if listeners != [] {
      var n := |listeners| - 1;
      var front := Fanout(listeners[..n], others, startEvent, operationName, eventName, threadId, baggage);
      FanoutPositions(listeners[..n], others, startEvent, operationName, eventName, threadId, baggage);
      var invs := Fanout(listeners, others, startEvent, operationName, eventName, threadId, baggage);
      if IsApplicable(listeners[n], others, operationName, eventName) {
        assert Positions(invs) == Positions(front) + [n];
      } else {
        assert invs == front;
      }
    }
  }

  /** How a wrapper ended. */
  datatype SpanRun<R> = SpanRun(trace: seq<Action>, outcome: Outcome<R>)

  /** The hooks callTaskEventListeners calls for one event of a span. */
  function SpanHooks(spanName: string, suffix: string, startEvent: bool, threadId: int, listeners: seq<Listener>,
                     others: Applicability, ctx: Context): (actions: seq<Action>)
    ensures forall i :: 0 <= i < |actions| ==>
      && actions[i].Called?
      && actions[i].invocation.hook == (if startEvent then OnStart else OnEnd)
      && actions[i].invocation.baggage == ctx.baggage
  {
    Calls(Dispatch(startEvent, "", spanName + suffix, threadId, Some(listeners), others, ctx))
  }

  /** The wrapped function runs once, at index k of the trace: every onStart
      hook before it and every onEnd hook after it. */
  predicate HooksAroundCall(trace: seq<Action>, k: nat) {
    && k < |trace| && trace[k] == Applied
    && (forall i :: 0 <= i < |trace| && i != k ==> trace[i] != Applied)
    && (forall i :: 0 <= i < |trace| && trace[i].Called? && trace[i].invocation.hook == OnStart ==> i < k)
    && (forall i :: 0 <= i < |trace| && trace[i].Called? && trace[i].invocation.hook == OnEnd ==> k < i)
  }

  /** Start hooks, the call, end hooks, then actions that are neither hooks
      nor calls: the call sits between the two groups of hooks. */
  lemma StartCallEnd(starts: seq<Action>, ends: seq<Action>, after: seq<Action>)
    requires forall i :: 0 <= i < |starts| ==> starts[i].Called? && starts[i].invocation.hook == OnStart
    requires forall i :: 0 <= i < |ends| ==> ends[i].Called? && ends[i].invocation.hook == OnEnd
    requires forall i :: 0 <= i < |after| ==> !after[i].Called? && after[i] != Applied
    ensures HooksAroundCall(starts + [Applied] + ends + after, |starts|)
  {
    var trace := starts + [Applied] + ends + after;
    forall i | 0 <= i < |trace|
      ensures i < |starts| ==> trace[i] == starts[i]
      ensures |starts| < i <= |starts| + |ends| ==> trace[i] == ends[i - |starts| - 1]
      ensures |starts| + |ends| < i ==> trace[i] == after[i - |starts| - |ends| - 1]
    {
    }
  }

  /** callFunctionAndStartSpan as written. The "-Start" hooks run inside
      the span's scopes, where the context is not the root and the new
      baggage is current; the "-End" hooks run in the finally block, after
      try-with-resources has closed both scopes, so under the caller's
      context. getInstance(null) throws NullPointer when no list was ever
      registered, in the try block and again in the finally block. */
  function CallFunctionAndStartSpan(spanName: string, attributes: Entries, caller: Context, global: Entries,
                                    registered: Option<ListenerList>, others: Applicability, threadId: int,
                                    applied: Outcome<()>): (run: SpanRun<()>)
    ensures CreateBaggage(spanName, attributes, caller.baggage, global).Err? ==>
      run == SpanRun([], Threw(CreateBaggage(spanName, attributes, caller.baggage, global).failure))
    ensures CreateBaggage(spanName, attributes, caller.baggage, global).Ok? && registered.None? ==>
      run == SpanRun([], Threw(NullPointer))
    ensures CreateBaggage(spanName, attributes, caller.baggage, global).Ok? && registered.Some? ==>
      run.outcome == applied && exists k :: HooksAroundCall(run.trace, k)
  {
    match CreateBaggage(spanName, attributes, caller.baggage, global)
    case Err(f) => SpanRun([], Threw(f))
    case Ok(baggage) =>
      match registered
      case None => SpanRun([], Threw(NullPointer))
      case Some(list) =>
        var inScope := Context(false, baggage);
        var starts := SpanHooks(spanName, "-Start", true, threadId, list.items, others, inScope);
        var ends := SpanHooks(spanName, "-End", false, threadId, list.items, others, caller);
        StartCallEnd(starts, ends, []);
        assert starts + [Applied] + ends + [] == starts + [Applied] + ends;
        SpanRun(starts + [Applied] + ends, applied)
  }

  /** callFunctionAndStartSpan with its "-End" hooks inside the span's
      scopes, like wrapAndCallFunction's, still run whether or not the
      function throws. */
  function CallFunctionAndStartSpanCorrected(spanName: string, attributes: Entries, caller: Context, global: Entries,
                                             registered: Option<ListenerList>, others: Applicability, threadId: int,
                                             applied: Outcome<()>): (run: SpanRun<()>)
    ensures CreateBaggage(spanName, attributes, caller.baggage, global).Err? ==>
      run == SpanRun([], Threw(CreateBaggage(spanName, attributes, caller.baggage, global).failure))
    ensures CreateBaggage(spanName, attributes, caller.baggage, global).Ok? && registered.None? ==>
      run == SpanRun([], Threw(NullPointer))
    ensures CreateBaggage(spanName, attributes, caller.baggage, global).Ok? && registered.Some? ==>
      run.outcome == applied && exists k :: HooksAroundCall(run.trace, k)
  {
    match CreateBaggage(spanName, attributes, caller.baggage, global)
    case Err(f) => SpanRun([], Threw(f))
    case Ok(baggage) =>
      match registered
      case None => SpanRun([], Threw(NullPointer))
      case Some(list) =>
        var inScope := Context(false, baggage);
        var starts := SpanHooks(spanName, "-Start", true, threadId, list.items, others, inScope);
        var ends := SpanHooks(spanName, "-End", false, threadId, list.items, others, inScope);
        StartCallEnd(starts, ends, []);
        assert starts + [Applied] + ends + [] == starts + [Applied] + ends;
        SpanRun(starts + [Applied] + ends, applied)
  }

  /** The hook positions of a start-applied-end trace. */
  lemma SpanTraceHooks(spanName: string, threadId: int, listeners: seq<Listener>, others: Applicability,
                       startCtx: Context, endCtx: Context)
    ensures var trace := SpanHooks(spanName, "-Start", true, threadId, listeners, others, startCtx) + [Applied]
                         + SpanHooks(spanName, "-End", false, threadId, listeners, others, endCtx);
      && HookPositions(trace, OnStart) ==
           (if startCtx.isRoot || listeners == [] then [] else ApplicablePositions(listeners, others, "", spanName + "-Start"))
      && HookPositions(trace, OnEnd) ==
           (if endCtx.isRoot || listeners == [] then [] else ApplicablePositions(listeners, others, "", spanName + "-End"))
  {
    var startInvs := Dispatch(true, "", spanName + "-Start", threadId, Some(listeners), others, startCtx);
    var endInvs := Dispatch(false, "", spanName + "-End", threadId, Some(listeners), others, endCtx);
    HookPositionsOfCalls(startInvs, OnStart);
    HookPositionsOfCalls(endInvs, OnEnd);
    HookPositionsAppend(Calls(startInvs), [Applied], OnStart);
    HookPositionsAppend(Calls(startInvs) + [Applied], Calls(endInvs), OnStart);
    HookPositionsAppend(Calls(startInvs), [Applied], OnEnd);
    HookPositionsAppend(Calls(startInvs) + [Applied], Calls(endInvs), OnEnd);
    if !startCtx.isRoot && listeners != [] {
      FanoutPositions(listeners, others, true, "", spanName + "-Start", threadId, startCtx.baggage);
    }
    if !endCtx.isRoot && listeners != [] {
      FanoutPositions(listeners, others, false, "", spanName + "-End", threadId, endCtx.baggage);
    }
  }

  /** As written, a span started from the root context calls the "-Start"
      hook of every package listener but no "-End" hook at all, so the
      per-thread measurement stacks of the listeners only grow. */
  lemma RootSpanSkipsEndHooks(spanName: string, attributes: Entries, caller: Context, global: Entries,
                              registered: Option<ListenerList>, others: Applicability, threadId: int,
                              applied: Outcome<()>)
    requires caller.isRoot && MarkersParse(caller.baggage) && registered.Some?
    ensures var run := CallFunctionAndStartSpan(spanName, attributes, caller, global, registered, others, threadId, applied);
      && HookPositions(run.trace, OnEnd) == []
      && HookPositions(run.trace, OnStart) ==
           (if registered.value.items == [] then []
            else ApplicablePositions(registered.value.items, others, "", spanName + "-Start"))
  {
    var baggage := CreateBaggage(spanName, attributes, caller.baggage, global).value;
    SpanTraceHooks(spanName, threadId, registered.value.items, others, Context(false, baggage), caller);
  }

  /** A concrete case: a registered JavaThreadEventListener is started for a
      root-context span and never ended. */
  lemma RootSpanLeavesJavaThreadStarted(spanName: string, others: Applicability, threadId: int)
    ensures var run := CallFunctionAndStartSpan(spanName, [], Context(true, []), [],
                                                Some(ListenerList([JavaThread], true)), others, threadId, Returned(()));
      HookPositions(run.trace, OnStart) == [0] && HookPositions(run.trace, OnEnd) == []
  {
    RootSpanLevel(spanName, [], [], []);
    RootSpanSkipsEndHooks(spanName, [], Context(true, []), [], Some(ListenerList([JavaThread], true)), others,
                          threadId, Returned(()));
    assert [JavaThread][..0] == [];
  }

  /** Corrected, the "-End" hooks reach every listener applicable to the end
      event, from any caller, with the span's own baggage current. */
  lemma CorrectedSpanEndsEveryStart(spanName: string, attributes: Entries, caller: Context, global: Entries,
                                    registered: Option<ListenerList>, others: Applicability, threadId: int,
                                    applied: Outcome<()>)
    requires MarkersParse(caller.baggage) && registered.Some? && registered.value.items != []
    ensures var run := CallFunctionAndStartSpanCorrected(spanName, attributes, caller, global, registered, others,
                                                         threadId, applied);
      var baggage := CreateBaggage(spanName, attributes, caller.baggage, global).value;
      && HookPositions(run.trace, OnStart) == ApplicablePositions(registered.value.items, others, "", spanName + "-Start")
      && HookPositions(run.trace, OnEnd) == ApplicablePositions(registered.value.items, others, "", spanName + "-End")
      && HooksSee(run.trace, OnStart, baggage) && HooksSee(run.trace, OnEnd, baggage)
  {
    var baggage := CreateBaggage(spanName, attributes, caller.baggage, global).value;
    var ctx := Context(false, baggage);
    SpanTraceHooks(spanName, threadId, registered.value.items, others, ctx, ctx);
    SpanTraceBaggage(spanName, threadId, registered.value.items, others, ctx, ctx);
  }

  /** As written, the "-End" hooks see the caller's baggage, not the
      span's, which the "-Start" hooks saw. */
  lemma EndHooksSeeCallerBaggage(spanName: string, attributes: Entries, caller: Context, global: Entries,
                                 registered: Option<ListenerList>, others: Applicability, threadId: int,
                                 applied: Outcome<()>)
    requires MarkersParse(caller.baggage) && registered.Some?
    ensures var run := CallFunctionAndStartSpan(spanName, attributes, caller, global, registered, others,
                                                threadId, applied);
      && HooksSee(run.trace, OnStart, CreateBaggage(spanName, attributes, caller.baggage, global).value)
      && HooksSee(run.trace, OnEnd, caller.baggage)
  {
    var baggage := CreateBaggage(spanName, attributes, caller.baggage, global).value;
    SpanTraceBaggage(spanName, threadId, registered.value.items, others, Context(false, baggage), caller);
  }

  /** Every hook of the given kind in the actions ran with this baggage
      current. */
  predicate HooksSee(actions: seq<Action>, hook: Hook, baggage: Entries) {
    forall i :: 0 <= i < |actions| && actions[i].Called? && actions[i].invocation.hook == hook ==>
      actions[i].invocation.baggage == baggage
  }

  lemma SpanTraceBaggage(spanName: string, threadId: int, listeners: seq<Listener>, others: Applicability,
                         startCtx: Context, endCtx: Context)
    ensures var trace := SpanHooks(spanName, "-Start", true, threadId, listeners, others, startCtx) + [Applied]
                         + SpanHooks(spanName, "-End", false, threadId, listeners, others, endCtx);
      HooksSee(trace, OnStart, startCtx.baggage) && HooksSee(trace, OnEnd, endCtx.baggage)
  {
    var starts := SpanHooks(spanName, "-Start", true, threadId, listeners, others, startCtx);
    var ends := SpanHooks(spanName, "-End", false, threadId, listeners, others, endCtx);
    var trace := starts + [Applied] + ends;
    forall i | 0 <= i < |trace| && trace[i].Called?
      ensures trace[i].invocation.hook == OnStart ==> trace[i].invocation.baggage == startCtx.baggage
      ensures trace[i].invocation.hook == OnEnd ==> trace[i].invocation.baggage == endCtx.baggage
    {
      if i < |starts| {
        assert trace[i] == starts[i];
      } else {
        assert i > |starts|;
        assert trace[i] == ends[i - |starts| - 1];
      }
    }
  }

  lemma {:induction false} PackagePositions(listeners: seq<Listener>, others: Applicability, operationName: string,
                                            event1: string, event2: string)
    requires forall i :: 0 <= i < |listeners| ==> !listeners[i].Other?
    ensures ApplicablePositions(listeners, others, operationName, event1)
      == ApplicablePositions(listeners, others, operationName, event2)
    decreases |listeners|
  {
    if listeners != [] {
      PackagePositions(listeners[..|listeners| - 1], others, operationName, event1, event2);
    }
  }

  /** The finally block runs the "-End" hooks whether or not the function
      throws; only the outcome differs. */
  lemma EndHooksWhetherOrNotApplyThrows(spanName: string, attributes: Entries, caller: Context, global: Entries,
                                        registered: Option<ListenerList>, others: Applicability, threadId: int,
                                        failure: Failure)
    ensures CallFunctionAndStartSpan(spanName, attributes, caller, global, registered, others, threadId, Threw(failure)).trace
         == CallFunctionAndStartSpan(spanName, attributes, caller, global, registered, others, threadId, Returned(())).trace
    ensures CallFunctionAndStartSpanCorrected(spanName, attributes, caller, global, registered, others, threadId, Threw(failure)).trace
         == CallFunctionAndStartSpanCorrected(spanName, attributes, caller, global, registered, others, threadId, Returned(())).trace
  {
  }

  /** closeCurrentScope: the elapsed time is recorded under the span's
      baggage, then the span ends. */
  function CloseScope(baggage: Entries): (actions: seq<Action>)
    ensures |actions| == 2 && actions[0].ElapsedRecorded? && actions[1] == SpanEnded
    ensures Keys(actions[0].attributes) == Keys(baggage)
    ensures DistinctKeys(baggage) ==> actions[0].attributes == baggage
  {
    [ElapsedRecorded(BaggageAttributes(baggage)), SpanEnded]
  }

  /** The function wrapAndCallFunction returns, applied to one argument.
      Inside the scopes: the "-Start" hooks, the original function and, only
      if it returned, the "-End" hooks; then, in the finally block, the
      scope is closed; then the result is returned unchanged. */
  function WrapAndCallFunction<R>(spanName: string, attributes: Entries, caller: Context, global: Entries,
                                  registered: Option<ListenerList>, others: Applicability, threadId: int,
                                  applied: Outcome<R>): (run: SpanRun<R>)
    ensures CreateBaggage(spanName, attributes, caller.baggage, global).Err? ==>
      run == SpanRun([], Threw(CreateBaggage(spanName, attributes, caller.baggage, global).failure))
    ensures CreateBaggage(spanName, attributes, caller.baggage, global).Ok? ==>
      var baggage := CreateBaggage(spanName, attributes, caller.baggage, global).value;
      && |run.trace| >= 2
      && run.trace[|run.trace| - 2..] == CloseScope(baggage)
      && run.outcome == (if registered.None? then Threw(NullPointer) else applied)
      && (registered.Some? ==> exists k :: HooksAroundCall(run.trace, k))
      && (forall i :: 0 <= i < |run.trace| && (run.trace[i].Called? || run.trace[i] == Applied) ==> i < |run.trace| - 2)
  {
    match CreateBaggage(spanName, attributes, caller.baggage, global)
    case Err(f) => SpanRun([], Threw(f))
    case Ok(baggage) =>
      match registered
      case None => SpanRun(CloseScope(baggage), Threw(NullPointer))
      case Some(list) =>
        var inScope := Context(false, baggage);
        var starts := SpanHooks(spanName, "-Start", true, threadId, list.items, others, inScope);
        var ends := if applied.Returned? then SpanHooks(spanName, "-End", false, threadId, list.items, others, inScope)
                    else [];
        var body := starts + [Applied] + ends;
        WrappedTrace(starts, ends, baggage);
        SpanRun(body + CloseScope(baggage), applied)
  }

  /** The wrapper's trace: the hooks and the call, all before the closing
      of the scope, which ends the trace. */
  lemma WrappedTrace(starts: seq<Action>, ends: seq<Action>, baggage: Entries)
    requires forall i :: 0 <= i < |starts| ==> starts[i].Called? && starts[i].invocation.hook == OnStart
    requires forall i :: 0 <= i < |ends| ==> ends[i].Called? && ends[i].invocation.hook == OnEnd
    ensures var trace := starts + [Applied] + ends + CloseScope(baggage);
      && |trace| >= 2 && trace[|trace| - 2..] == CloseScope(baggage)
      && HooksAroundCall(trace, |starts|)
      && (forall i :: 0 <= i < |trace| && (trace[i].Called? || trace[i] == Applied) ==> i < |trace| - 2)
  {
    var body := starts + [Applied] + ends;
    var trace := body + CloseScope(baggage);
    assert trace[|trace| - 2..] == trace[|body|..];
    StartCallEnd(starts, ends, CloseScope(baggage));
  }

  /** wrapAndCallFunction calls "-End" hooks only when the function
      returned; when it did, they reach every listener applicable to the end
      event. */
  lemma WrappedEndHooksOnlyOnReturn<R>(spanName: string, attributes: Entries, caller: Context, global: Entries,
                                       registered: Option<ListenerList>, others: Applicability, threadId: int,
                                       applied: Outcome<R>)
    requires MarkersParse(caller.baggage) && registered.Some? && registered.value.items != []
    ensures var run := WrapAndCallFunction(spanName, attributes, caller, global, registered, others, threadId, applied);
      && HookPositions(run.trace, OnStart) == ApplicablePositions(registered.value.items, others, "", spanName + "-Start")
      && HookPositions(run.trace, OnEnd) ==
           (if applied.Returned? then ApplicablePositions(registered.value.items, others, "", spanName + "-End") else [])
  {
    var baggage := CreateBaggage(spanName, attributes, caller.baggage, global).value;
    var ctx := Context(false, baggage);
    var ls := registered.value.items;
    // A failed call has no "-End" hooks, like an end dispatched in a root context.
    var endCtx := if applied.Returned? then ctx else Context(true, baggage);
    var starts := SpanHooks(spanName, "-Start", true, threadId, ls, others, ctx);
    var ends := SpanHooks(spanName, "-End", false, threadId, ls, others, endCtx);
    SpanTraceHooks(spanName, threadId, ls, others, ctx, endCtx);
    var run := WrapAndCallFunction(spanName, attributes, caller, global, registered, others, threadId, applied);
    assert run.trace == starts + [Applied] + ends + CloseScope(baggage);
    HookPositionsClose(starts + [Applied] + ends, baggage, OnStart);
    HookPositionsClose(starts + [Applied] + ends, baggage, OnEnd);
  }

  lemma HookPositionsClose(actions: seq<Action>, baggage: Entries, hook: Hook)
    ensures HookPositions(actions + CloseScope(baggage), hook) == HookPositions(actions, hook)
  {
    HookPositionsAppend(actions, CloseScope(baggage), hook);
    var close := CloseScope(baggage);
    assert close[1..][1..] == [];
  }
}

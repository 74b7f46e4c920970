/** The per-thread measurement registry shared in shape by the three
    listeners: a map from thread id to a java.util.Stack whose top is the
    last element of the sequence. */
module ThreadStacks {
  import opened Common

  type Registry<M> = map<int, seq<M>>

  /** The thread's stack, or the empty one when it has none yet. */
  function StackOf<M>(r: Registry<M>, tid: int): seq<M> {
    if tid in r then r[tid] else []
  }

  function Depth<M>(r: Registry<M>, tid: int): nat {
    |StackOf(r, tid)|
  }

  /** onStart: computeIfAbsent(tid, k -> new Stack<>()), then add(m). */
  function Push<M>(r: Registry<M>, tid: int, m: M): (r': Registry<M>)
    ensures r'.Keys == r.Keys + {tid}
    ensures StackOf(r', tid) == StackOf(r, tid) + [m]
    ensures Depth(r', tid) == Depth(r, tid) + 1
    ensures forall u :: u != tid ==> StackOf(r', u) == StackOf(r, u) && (u in r' <==> u in r)
  {
    r[tid := StackOf(r, tid) + [m]]
  }

  /** onEnd's get(tid).peek(): a NullPointerException when the thread has no
      stack, an EmptyStackException when its stack is empty, otherwise the
      most recently pushed measurement. */
  function Top<M>(r: Registry<M>, tid: int): (res: Result<M>)
    ensures res.Ok? <==> Depth(r, tid) > 0
    ensures tid !in r ==> res == Err(NullPointer)
    ensures tid in r && r[tid] == [] ==> res == Err(EmptyStack)
    ensures res.Ok? ==> res.value == StackOf(r, tid)[Depth(r, tid) - 1]
  {
    if tid !in r then Err(NullPointer)
    else if r[tid] == [] then Err(EmptyStack)
    else Ok(r[tid][|r[tid]| - 1])
  }

  /** onEnd's get(tid).pop(), reached only after peek succeeded. */
  function Pop<M>(r: Registry<M>, tid: int): (r': Registry<M>)
    requires Depth(r, tid) > 0
    ensures r'.Keys == r.Keys
    ensures StackOf(r', tid) == StackOf(r, tid)[..Depth(r, tid) - 1]
    ensures forall u :: u != tid ==> StackOf(r', u) == StackOf(r, u)
  {
    r[tid := r[tid][..|r[tid]| - 1]]
  }

  /** One onEnd on the registry: the measurement it records from, and the
      registry after the pop. */
  function End<M>(r: Registry<M>, tid: int): (res: Result<(M, Registry<M>)>)
    ensures res.Ok? <==> Depth(r, tid) > 0
    ensures res.Err? ==> res.failure == (if tid in r then EmptyStack else NullPointer)
    ensures res.Ok? ==> res.value.0 == StackOf(r, tid)[Depth(r, tid) - 1] && res.value.1 == Pop(r, tid)
  {
    match Top(r, tid)
    case Err(f) => Err(f)
    case Ok(m) => Ok((m, Pop(r, tid)))
  }

  /** n onStart calls on one thread, pushing ms in order. */
  function PushMany<M>(r: Registry<M>, tid: int, ms: seq<M>): Registry<M>
    decreases |ms|
  {
    if ms == [] then r else PushMany(Push(r, tid, ms[0]), tid, ms[1..])
  }

  /** n onEnd calls on one thread: the measurements in the order they were
      popped, and the final registry. */
  function EndMany<M>(r: Registry<M>, tid: int, n: nat): Result<(seq<M>, Registry<M>)> {
    if n == 0 then Ok(([], r))
    else match End(r, tid)
      case Err(f) => Err(f)
      case Ok(top) =>
        match EndMany(top.1, tid, n - 1)
        case Err(f) => Err(f)
        case Ok(rest) => Ok(([top.0] + rest.0, rest.1))
  }

  function Reversed<M>(ms: seq<M>): (rs: seq<M>)
    ensures |rs| == |ms|
  {
    if ms == [] then [] else [ms[|ms| - 1]] + Reversed(ms[..|ms| - 1])
  }

  /** LIFO: an onEnd right after an onStart on the same thread records from
      the measurement that onStart pushed, and leaves the stack as it was
      (present in the map, possibly empty). */
  lemma PushThenEnd<M>(r: Registry<M>, tid: int, m: M)
    ensures End(Push(r, tid, m), tid) == Ok((m, r[tid := StackOf(r, tid)]))
  {
    var s := StackOf(r, tid);
    var pushed := Push(r, tid, m);
    assert pushed == r[tid := s + [m]];
    assert (s + [m])[..|s|] == s;
    assert Top(pushed, tid) == Ok(m);
    assert Pop(pushed, tid) == r[tid := s + [m]][tid := s];
    assert r[tid := s + [m]][tid := s] == r[tid := s];
  }

  /** Isolation: onStart and onEnd on one thread leave every other thread's
      stack as it was. */
  lemma EndIsolation<M>(r: Registry<M>, tid: int, other: int)
    requires other != tid
    ensures End(r, tid).Ok? ==> StackOf(End(r, tid).value.1, other) == StackOf(r, other)
  {
  }

  /** Underflow: onEnd with no stack, or an empty one, fails and never
      yields a measurement. */
  lemma EndUnderflow<M>(r: Registry<M>, tid: int)
    requires Depth(r, tid) == 0
    ensures End(r, tid) == Err(if tid in r then EmptyStack else NullPointer)
  {
  }

  lemma {:induction false} PushManyStack<M>(r: Registry<M>, tid: int, ms: seq<M>)
    requires ms != []
    ensures PushMany(r, tid, ms) == r[tid := StackOf(r, tid) + ms]
    decreases |ms|
  {
    var r1 := Push(r, tid, ms[0]);
    assert r1 == r[tid := StackOf(r, tid) + [ms[0]]];
    assert PushMany(r, tid, ms) == PushMany(r1, tid, ms[1..]);
    if ms[1..] == [] {
      assert ms == [ms[0]];
    } else {
      PushManyStack(r1, tid, ms[1..]);
      assert StackOf(r1, tid) + ms[1..] == StackOf(r, tid) + ms;
      assert r1[tid := StackOf(r1, tid) + ms[1..]] == r[tid := StackOf(r, tid) + ms];
    }
  }

  lemma {:induction false} EndManyPops<M>(r: Registry<M>, tid: int, s: seq<M>, ms: seq<M>)
    ensures EndMany(r[tid := s + ms], tid, |ms|) == Ok((Reversed(ms), r[tid := s]))
    decreases |ms|
  {
    if ms != [] {
      var n := |ms|;
      var r1 := r[tid := s + ms];
      assert (s + ms)[..|s + ms| - 1] == s + ms[..n - 1];
      assert r1[tid := s + ms[..n - 1]] == r[tid := s + ms[..n - 1]];
      assert Pop(r1, tid) == r[tid := s + ms[..n - 1]];
      assert End(r1, tid) == Ok((ms[n - 1], r[tid := s + ms[..n - 1]]));
      EndManyPops(r, tid, s, ms[..n - 1]);
    } else {
      assert s + ms == s;
    }
  }

  /** Well-nested use of one thread: after n onStart calls followed by n
      onEnd calls, the ends have seen the measurements in reverse order of
      their starts, the thread's stack is back to what it was (empty for a
      thread seen for the first time) and stays in the map, and no other
      thread's stack changed. */
  lemma NestedStartsAndEnds<M>(r: Registry<M>, tid: int, ms: seq<M>)
    requires ms != []
    ensures EndMany(PushMany(r, tid, ms), tid, |ms|) == Ok((Reversed(ms), r[tid := StackOf(r, tid)]))
  {
    PushManyStack(r, tid, ms);
    EndManyPops(r, tid, StackOf(r, tid), ms);
  }
}

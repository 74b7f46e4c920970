/** Values shared by every part of the model: the Java failures the modelled
    code can raise, optional values, and the ordered key/value entries that
    stand for an OpenTelemetry Baggage or an Attributes set. */
module Common {

  datatype Option<+T> = None | Some(value: T)

  /** The exceptions the modelled Java code can raise. */
  datatype Failure =
    | NullPointer            // a method called through a null reference
    | EmptyStack             // java.util.Stack.peek on an empty stack
    | IndexOutOfBounds       // an array index past the end
    | NumberFormat           // Integer.parseInt on a malformed string
    | UnsupportedOperation   // add on an unmodifiable list
    | Raised(name: string)   // thrown by code outside the model

  datatype Result<+T> = Ok(value: T) | Err(failure: Failure) {
    predicate IsFailure() { Err? }
    function PropagateFailure<U>(): Result<U> requires Err? { Err(failure) }
    function Extract(): T requires Ok? { value }
  }

  /** How a call into code outside the model ended: a value or an exception. */
  datatype Outcome<+R> = Returned(value: R) | Threw(failure: Failure)

  /** Key/value entries in iteration order: a Baggage, or an Attributes set. */
  type Entries = seq<(string, string)>

  function Keys(es: Entries): set<string> {
    if es == [] then {} else {es[0].0} + Keys(es[1..])
  }

  /** No key occurs twice. */
  predicate DistinctKeys(es: Entries) {
    es == [] || (es[0].0 !in Keys(es[1..]) && DistinctKeys(es[1..]))
  }

  lemma {:induction false} KeysAppend(a: Entries, b: Entries)
    ensures Keys(a + b) == Keys(a) + Keys(b)
    ensures DistinctKeys(a + b) <==> DistinctKeys(a) && DistinctKeys(b) && Keys(a) !! Keys(b)
  {
    if a != [] {
      assert (a + b)[1..] == a[1..] + b;
      KeysAppend(a[1..], b);
    } else {
      assert a + b == b;
    }
  }

  /** The value stored under k, if any. */
  function Lookup(es: Entries, k: string): (r: Option<string>)
    ensures r.Some? <==> k in Keys(es)
  {
    if es == [] then None
    else if es[0].0 == k then Some(es[0].1)
    else Lookup(es[1..], k)
  }

  /** A builder's put: the value of an existing key is replaced in place,
      a new key is appended. */
  function Put(es: Entries, k: string, v: string): (r: Entries)
    ensures Keys(r) == Keys(es) + {k}
    ensures Lookup(r, k) == Some(v)
    ensures forall j :: j != k ==> Lookup(r, j) == Lookup(es, j)
    ensures DistinctKeys(es) ==> DistinctKeys(r)
    ensures k !in Keys(es) ==> r == es + [(k, v)]
  {
    if es == [] then [(k, v)]
    else if es[0].0 == k then [(k, v)] + es[1..]
    else
      var rest := Put(es[1..], k, v);
      assert ([es[0]] + rest)[1..] == rest;
      assert k !in Keys(es) ==> es + [(k, v)] == [es[0]] + (es[1..] + [(k, v)]);
      [es[0]] + rest
  }

  /** The value of the LAST entry of kvs whose key is k. */
  function LastValue(kvs: Entries, k: string): (r: Option<string>)
    ensures r.Some? <==> k in Keys(kvs)
  {
    if kvs == [] then None
    else
      match LastValue(kvs[1..], k)
      case Some(v) => Some(v)
      case None => if kvs[0].0 == k then Some(kvs[0].1) else None
  }

  /** kvs.forEach(builder::put) on a builder that already holds es:
      later puts win. */
  function PutAll(es: Entries, kvs: Entries): (r: Entries)
    ensures Keys(r) == Keys(es) + Keys(kvs)
    ensures forall k :: Lookup(r, k) == if k in Keys(kvs) then LastValue(kvs, k) else Lookup(es, k)
    ensures DistinctKeys(es) ==> DistinctKeys(r)
    decreases |kvs|
  {
    if kvs == [] then es
    else
      PutAll(Put(es, kvs[0].0, kvs[0].1), kvs[1..])
  }

  /** Copying entries whose keys are distinct and new appends them unchanged. */
  lemma {:induction false} PutAllFresh(es: Entries, kvs: Entries)
    requires DistinctKeys(es + kvs)
    ensures PutAll(es, kvs) == es + kvs
    decreases |kvs|
  {
    if kvs != [] {
      var k := kvs[0].0;
      KeysAppend(es, kvs);
      assert kvs == [kvs[0]] + kvs[1..];
      KeysAppend([kvs[0]], kvs[1..]);
      assert Put(es, k, kvs[0].1) == es + [kvs[0]];
      assert es + [kvs[0]] + kvs[1..] == es + kvs;
      PutAllFresh(es + [kvs[0]], kvs[1..]);
    }
  }

  /** The attributes every recording builds from the current baggage
      (baggage.forEach(attributesBuilder::put)). A baggage never has a key
      twice, so the attributes are the baggage itself. */
  function BaggageAttributes(baggage: Entries): (r: Entries)
    ensures DistinctKeys(baggage) ==> r == baggage
    ensures Keys(r) == Keys(baggage)
  {
    var r := PutAll([], baggage);
    assert DistinctKeys(baggage) ==> r == baggage by {
      if DistinctKeys(baggage) { assert [] + baggage == baggage; PutAllFresh([], baggage); }
    }
    r
  }
}

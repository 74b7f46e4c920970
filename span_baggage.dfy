/** OpenTelemetryService.createBaggage: the baggage a new span makes current.
    It copies the span's attributes, the current baggage and the global
    attributes, in that order, and adds a "SpanName_<level>" marker whose
    level is one more than the number in the last marker of the current
    baggage. */
module SpanBaggage {
  import opened Common
  import opened JavaText

  const MarkerPrefix: string := "SpanName_"

  /** k.startsWith("SpanName_") */
  predicate IsMarkerKey(k: string) {
    |k| >= |MarkerPrefix| && k[..|MarkerPrefix|] == MarkerPrefix
  }

  function MarkerKey(level: int): (k: string)
    ensures IsMarkerKey(k)
  {
    MarkerPrefix + IntToString(level)
  }

  /** The pieces of s between the '_' characters, empty pieces included. */
  function Fields(s: string): (parts: seq<string>)
    ensures |parts| >= 1
    ensures forall i :: 0 <= i < |parts| ==> '_' !in parts[i]
  {
    if s == [] then [[]]
    else if s[0] == '_' then [[]] + Fields(s[1..])
    else
      var rest := Fields(s[1..]);
      [[s[0]] + rest[0]] + rest[1..]
  }

  /** The pieces joined back with '_'. */
  function Join(parts: seq<string>): string
    requires |parts| >= 1
  {
    if |parts| == 1 then parts[0] else parts[0] + "_" + Join(parts[1..])
  }

  /** Fields loses nothing: joining its pieces gives s back. */
  lemma {:induction false} JoinFields(s: string)
    ensures Join(Fields(s)) == s
    decreases |s|
  {
    if s != [] {
      JoinFields(s[1..]);
      var rest := Fields(s[1..]);
      if s[0] == '_' {
        assert ([[]] + rest)[1..] == rest;
        assert s == "_" + s[1..];
      } else {
        var parts := [[s[0]] + rest[0]] + rest[1..];
        if |rest| == 1 {
          assert Join(parts) == [s[0]] + rest[0];
        } else {
          assert parts[1..] == rest[1..];
          assert Join(parts) == [s[0]] + rest[0] + "_" + Join(rest[1..]);
          assert Join(rest) == rest[0] + "_" + Join(rest[1..]);
        }
        assert s == [s[0]] + s[1..];
      }
    }
  }

  function DropTrailingEmpty(parts: seq<string>): (r: seq<string>)
    ensures |r| <= |parts| && r == parts[..|r|]
    ensures r != [] ==> r[|r| - 1] != []
    ensures forall i :: |r| <= i < |parts| ==> parts[i] == []
  {
    if parts != [] && parts[|parts| - 1] == [] then DropTrailingEmpty(parts[..|parts| - 1]) else parts
  }

  /** String.split("_"): the fields with trailing empty fields removed; a
      string without any '_' splits into itself. */
  function Split(s: string): (parts: seq<string>)
    ensures '_' !in s ==> parts == [s]
  {
    if '_' !in s then [s] else DropTrailingEmpty(Fields(s))
  }

  lemma {:induction false} FieldsWithoutSeparator(s: string)
    requires '_' !in s
    ensures Fields(s) == [s]
    decreases |s|
  {
    if s != [] {
      FieldsWithoutSeparator(s[1..]);
      assert s == [s[0]] + s[1..];
    }
  }

  lemma {:induction false} FieldsAfterSeparator(a: string, b: string)
    requires '_' !in a
    ensures Fields(a + "_" + b) == [a] + Fields(b)
    decreases |a|
  {
    if a == [] {
      assert a + "_" + b == "_" + b;
      assert ("_" + b)[1..] == b;
    } else {
      assert (a + "_" + b)[1..] == a[1..] + "_" + b;
      FieldsAfterSeparator(a[1..], b);
      assert a == [a[0]] + a[1..];
    }
  }

  /** k.split("_")[1]: IndexOutOfBounds when the split has one piece. */
  function SecondField(k: string): (r: Result<string>)
    ensures r.Err? ==> r.failure == IndexOutOfBounds
  {
    var parts := Split(k);
    if |parts| < 2 then Err(IndexOutOfBounds) else Ok(parts[1])
  }

  /** Integer.parseInt(k.split("_")[1]) */
  function MarkerNumber(k: string): (r: Result<int>)
    ensures r.Ok? ==> IsInt(r.value)
  {
    var field :- SecondField(k);
    ParseInt(field)
  }

  /** The marker createBaggage writes reads back as its own level. */
  lemma MarkerNumberOfMarkerKey(level: int)
    requires IsInt(level)
    ensures MarkerNumber(MarkerKey(level)) == Ok(level)
  {
    var digits := IntToString(level);
    assert MarkerKey(level) == "SpanName" + "_" + digits;
    assert '_' !in digits;
    FieldsAfterSeparator("SpanName", digits);
    FieldsWithoutSeparator(digits);
    assert Fields(MarkerKey(level)) == ["SpanName", digits];
    assert '_' in MarkerKey(level) by { assert MarkerKey(level)[8] == '_'; }
    ParseIntToString(level);
  }

  /** A marker key with nothing after "SpanName_" splits into one piece. */
  lemma BareMarkerIsOutOfBounds()
    ensures SecondField(MarkerPrefix) == Err(IndexOutOfBounds)
  {
    assert MarkerPrefix == "SpanName" + "_" + "";
    FieldsAfterSeparator("SpanName", "");
    var fields := Fields(MarkerPrefix);
    assert fields == ["SpanName", ""];
    assert '_' in MarkerPrefix by { assert MarkerPrefix[8] == '_'; }
    assert fields[..1] == ["SpanName"];
    assert Split(MarkerPrefix) == DropTrailingEmpty(["SpanName"]);
  }

  /** The Baggage.current().forEach loop: every marker key sets the level to
      its number plus one (an int addition), scanning in iteration order; a
      marker whose number cannot be read throws. */
  function LevelFold(current: Entries, level: int): (r: Result<int>)
    ensures r.Ok? && IsInt(level) ==> IsInt(r.value)
    decreases |current|
  {
    if current == [] then Ok(level)
    else if IsMarkerKey(current[0].0) then
      match MarkerNumber(current[0].0)
      case Err(f) => Err(f)
      case Ok(n) => LevelFold(current[1..], Wrap32(n + 1))
    else LevelFold(current[1..], level)
  }

  /** The key of the last marker entry, if any. */
  function LastMarker(current: Entries): (r: Option<string>)
    ensures r.Some? ==> IsMarkerKey(r.value)
    ensures r.Some? && MarkersParse(current) ==> MarkerNumber(r.value).Ok?
  {
    if current == [] then None
    else
      match LastMarker(current[1..])
      case Some(k) => Some(k)
      case None => if IsMarkerKey(current[0].0) then Some(current[0].0) else None
  }

  predicate NoMarkers(es: Entries) {
    forall k :: k in Keys(es) ==> !IsMarkerKey(k)
  }

  /** There is a last marker exactly when some key is a marker, and it is
      one of the keys. */
  lemma {:induction false} LastMarkerExists(current: Entries)
    ensures LastMarker(current).None? <==> NoMarkers(current)
    ensures LastMarker(current).Some? ==> LastMarker(current).value in Keys(current)
    decreases |current|
  {
    if current != [] {
      assert Keys(current) == {current[0].0} + Keys(current[1..]);
      LastMarkerExists(current[1..]);
    }
  }

  /** Every marker key's number can be read. */
  predicate MarkersParse(current: Entries)
    decreases |current|
  {
    current == [] ||
    ((IsMarkerKey(current[0].0) ==> MarkerNumber(current[0].0).Ok?) && MarkersParse(current[1..]))
  }

  /** The same, stated over the keys. */
  lemma {:induction false} MarkersParseKeys(current: Entries)
    ensures MarkersParse(current) <==> forall k :: k in Keys(current) && IsMarkerKey(k) ==> MarkerNumber(k).Ok?
    decreases |current|
  {
    if current != [] {
      assert Keys(current) == {current[0].0} + Keys(current[1..]);
      MarkersParseKeys(current[1..]);
    }
  }

  /** The level a reference definition gives: 0 without markers, otherwise
      the last marker's number plus one. */
  function ExpectedLevel(current: Entries, level: int): int
    requires MarkersParse(current)
  {
    match LastMarker(current)
    case None => level
    case Some(k) => Wrap32(MarkerNumber(k).value + 1)
  }

  /** The loop fails exactly when some marker is unreadable. */
  lemma {:induction false} LevelFoldSucceeds(current: Entries, level: int)
    ensures LevelFold(current, level).Ok? <==> MarkersParse(current)
    decreases |current|
  {
    if current != [] {
      var k := current[0].0;
      if IsMarkerKey(k) {
        if MarkerNumber(k).Ok? {
          LevelFoldSucceeds(current[1..], Wrap32(MarkerNumber(k).value + 1));
        }
      } else {
        LevelFoldSucceeds(current[1..], level);
      }
    }
  }

  /** Otherwise the loop ends with the last marker's number plus one. */
  lemma {:induction false} LevelFoldIsLastMarker(current: Entries, level: int)
    requires MarkersParse(current)
    ensures LevelFold(current, level) == Ok(ExpectedLevel(current, level))
    decreases |current|
  {
    if current != [] {
      var next := NextLevel(current[0].0, level);
      LevelFoldIsLastMarker(current[1..], next);
      LevelFoldStep(current, level);
      ExpectedLevelStep(current, level);
    }
  }

  /** The level after one entry of a readable baggage. */
  function NextLevel(k: string, level: int): int
    requires IsMarkerKey(k) ==> MarkerNumber(k).Ok?
  {
    if IsMarkerKey(k) then Wrap32(MarkerNumber(k).value + 1) else level
  }

  lemma LevelFoldStep(current: Entries, level: int)
    requires current != [] && MarkersParse(current)
    ensures LevelFold(current, level) == LevelFold(current[1..], NextLevel(current[0].0, level))
  {
  }

  lemma ExpectedLevelStep(current: Entries, level: int)
    requires current != [] && MarkersParse(current)
    ensures ExpectedLevel(current, level) == ExpectedLevel(current[1..], NextLevel(current[0].0, level))
  {
  }

  /** The level the new span's marker gets. */
  function SpanLevel(current: Entries): Result<int> {
    LevelFold(current, 0)
  }

  /** createBaggage(spanName, attributes) with the current baggage and the
      global attributes as inputs. */
  function CreateBaggage(spanName: string, attributes: Entries, current: Entries, global: Entries): (r: Result<Entries>)
    ensures r.Ok? <==> MarkersParse(current)
    ensures r.Err? ==> r.failure == IndexOutOfBounds || r.failure == NumberFormat
    ensures r.Ok? ==>
      var marker := MarkerKey(ExpectedLevel(current, 0));
      && Lookup(r.value, marker) == Some(spanName)
      && Keys(r.value) == Keys(attributes) + Keys(current) + Keys(global) + {marker}
      && DistinctKeys(r.value)
      && forall k :: k != marker ==>
           Lookup(r.value, k) ==
             if k in Keys(global) then LastValue(global, k)
             else if k in Keys(current) then LastValue(current, k)
             else LastValue(attributes, k)
  {
    LevelFoldSucceeds(current, 0);
    assert MarkersParse(current) ==> LevelFold(current, 0) == Ok(ExpectedLevel(current, 0)) by {
      if MarkersParse(current) { LevelFoldIsLastMarker(current, 0); }
    }
    FoldFailure(current, 0);
    var level :- SpanLevel(current);
    var copied := PutAll(PutAll(PutAll([], attributes), current), global);
    Ok(Put(copied, MarkerKey(level), spanName))
  }

  /** The loop throws only what split and parseInt throw. */
  lemma {:induction false} FoldFailure(current: Entries, level: int)
    ensures LevelFold(current, level).Err? ==>
      LevelFold(current, level).failure == IndexOutOfBounds || LevelFold(current, level).failure == NumberFormat
    decreases |current|
  {
    if current != [] {
      var k := current[0].0;
      if IsMarkerKey(k) {
        if MarkerNumber(k).Ok? {
          FoldFailure(current[1..], Wrap32(MarkerNumber(k).value + 1));
        }
      } else {
        FoldFailure(current[1..], level);
      }
    }
  }

  /** A span whose parent baggage has no marker is at level 0. */
  lemma RootSpanLevel(spanName: string, attributes: Entries, current: Entries, global: Entries)
    requires NoMarkers(current)
    ensures CreateBaggage(spanName, attributes, current, global).Ok?
    ensures Lookup(CreateBaggage(spanName, attributes, current, global).value, "SpanName_0") == Some(spanName)
  {
    assert MarkerKey(0) == "SpanName_0";
    LastMarkerExists(current);
    MarkersParseKeys(current);
  }

  /** A marker entry at the end of the entries is the last marker. */
  lemma {:induction false} LastMarkerAppend(es: Entries, k: string, v: string)
    requires IsMarkerKey(k)
    ensures LastMarker(es + [(k, v)]) == Some(k)
    decreases |es|
  {
    if es == [] {
      assert LastMarker([(k, v)][1..]) == None;
    } else {
      assert (es + [(k, v)])[1..] == es[1..] + [(k, v)];
      LastMarkerAppend(es[1..], k, v);
    }
  }

  /** A span created under the baggage of a span at level L is at level
      L + 1 (as an int addition), provided the attributes copied around the
      parent's marker hold no marker and the parent's marker was new. */
  lemma NestedSpanLevel(parentName: string, attributes: Entries, current: Entries, global: Entries)
    requires NoMarkers(attributes) && NoMarkers(global)
    requires SpanLevel(current).Ok? && MarkerKey(SpanLevel(current).value) !in Keys(current)
    ensures CreateBaggage(parentName, attributes, current, global).Ok?
    ensures var parent := CreateBaggage(parentName, attributes, current, global).value;
      SpanLevel(parent) == Ok(Wrap32(SpanLevel(current).value + 1))
  {
    LevelFoldSucceeds(current, 0);
    LevelFoldIsLastMarker(current, 0);
    var level := SpanLevel(current).value;
    var marker := MarkerKey(level);
    var copied := PutAll(PutAll(PutAll([], attributes), current), global);
    assert marker !in Keys(copied);
    var parent := Put(copied, marker, parentName);
    assert parent == copied + [(marker, parentName)];
    LastMarkerAppend(copied, marker, parentName);
    MarkerNumberOfMarkerKey(level);
    MarkersParseKeys(current);
    MarkersParseKeys(parent);
    assert MarkersParse(parent) by {
      forall k | k in Keys(parent) && IsMarkerKey(k)
        ensures MarkerNumber(k).Ok?
      {
        if k != marker {
          assert k in Keys(current);
        }
      }
    }
    LevelFoldIsLastMarker(parent, 0);
  }
}

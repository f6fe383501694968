/** Shape-directed (de)serialisation between the SDK's typed values and their
    REST-JSON wire form.

    The generated code has one serialiser and one deserialiser per shape, all built
    from the same four patterns; here one shape descriptor drives a single engine:
    - structures copy each declared member that is neither undefined nor null
      (an undefined member is a key missing from the map);
    - lists drop null entries and keep the others in order;
    - maps drop the keys whose value is null;
    - timestamps travel as epoch seconds and are held as `Date`s, i.e. milliseconds. */
module Shapes {
  import opened JsonValues

  datatype Shape =
    | SString
    | SNumber
    | SBool
    | STimestamp
    | SList(member: Shape)
    | SMap(value: Shape)
    | SStruct(members: map<string, Shape>)

  /** A value on the SDK side of the wire. `VDate` holds `Date.getTime()`. */
  datatype Value =
    | VNull
    | VBool(b: bool)
    | VNum(n: int)
    | VStr(s: string)
    | VDate(ms: int)
    | VList(items: seq<Value>)
    | VObj(fields: map<string, Value>)

  /** What the TypeScript types admit: a non-null value of the shape, whose members,
      list entries and map values may be null. */
  predicate WellTyped(sh: Shape, v: Value)
    decreases sh
  {
    match sh
    case SString => v.VStr?
    case SNumber => v.VNum?
    case SBool => v.VBool?
    case STimestamp => v.VDate?
    case SList(e) =>
      v.VList? && forall i :: 0 <= i < |v.items| ==> v.items[i] == VNull || WellTyped(e, v.items[i])
    case SMap(e) =>
      v.VObj? && forall k :: k in v.fields ==> v.fields[k] == VNull || WellTyped(e, v.fields[k])
    case SStruct(ms) =>
      v.VObj? && forall k :: k in ms && k in v.fields ==> v.fields[k] == VNull || WellTyped(ms[k], v.fields[k])
  }

  /** What the service model promises of a response: JSON of the shape's wire type,
      with null allowed for members, entries and map values. A list position may
      also hold null itself, which the list deserialiser reads as `[]`. */
  predicate Conforms(sh: Shape, j: Json)
    decreases sh
  {
    match sh
    case SString => j.Str?
    case SNumber => j.Num?
    case SBool => j.Bool?
    case STimestamp => j.Num?
    case SList(e) =>
      j.Null? || (j.Arr? && forall i :: 0 <= i < |j.items| ==> j.items[i] == Null || Conforms(e, j.items[i]))
    case SMap(e) =>
      j.Obj? && forall k :: k in j.fields ==> j.fields[k] == Null || Conforms(e, j.fields[k])
    case SStruct(ms) =>
      j.Obj? && forall k :: k in ms && k in j.fields ==> j.fields[k] == Null || Conforms(ms[k], j.fields[k])
  }

  // ---------------------------------------------------------------- timestamps

  /** `Math.round(date.getTime() / 1000)`: halves round towards +infinity. */
  function EpochSeconds(ms: int): int {
    (ms + 500) / 1000
  }

  /** `Math.round(seconds * 1000)`, exact for whole seconds. */
  function EpochMillis(s: int): int {
    s * 1000
  }

  /** Whole seconds survive a deserialise-then-serialise trip. */
  lemma SecondsRoundTrip(s: int)
    ensures EpochSeconds(EpochMillis(s)) == s
  {
    var a := s * 1000 + 500;
    assert a == s * 1000 + 500;
    var q := a / 1000;
    var r := a % 1000;
    assert a == q * 1000 + r && 0 <= r < 1000;
    assert (s - q) * 1000 == r - 500;
  }

  /** Serialising keeps the nearest whole second: sub-second precision is lost,
      by at most half a second. */
  lemma NearestSecond(ms: int)
    ensures -500 <= ms - EpochMillis(EpochSeconds(ms)) < 500
  {
    var a := ms + 500;
    assert a == (a / 1000) * 1000 + a % 1000;
  }

  // ---------------------------------------------------------------- lists

  /** `list.filter((e) => e != null)`. */
  function NonNulls(xs: seq<Value>): (r: seq<Value>)
    ensures |r| <= |xs|
    ensures forall i :: 0 <= i < |r| ==> r[i] != VNull && r[i] in xs
  {
    if xs == [] then []
    else if xs[0] == VNull then NonNulls(xs[1..])
    else [xs[0]] + NonNulls(xs[1..])
  }

  /** Filtering works piecewise, so the surviving entries keep their order. */
  lemma {:induction false} NonNullsAppend(a: seq<Value>, b: seq<Value>)
    ensures NonNulls(a + b) == NonNulls(a) + NonNulls(b)
  {
    if a != [] {
      assert (a + b)[0] == a[0];
      assert (a + b)[1..] == a[1..] + b;
      NonNullsAppend(a[1..], b);
      if a[0] != VNull {
        assert [a[0]] + (NonNulls(a[1..]) + NonNulls(b)) == ([a[0]] + NonNulls(a[1..])) + NonNulls(b);
      }
    } else {
      assert a + b == b;
    }
  }

  /** A list without nulls is kept whole. */
  lemma {:induction false} NonNullsOfNullFree(xs: seq<Value>)
    requires forall i :: 0 <= i < |xs| ==> xs[i] != VNull
    ensures NonNulls(xs) == xs
  {
    if xs != [] {
      NonNullsOfNullFree(xs[1..]);
    }
  }

  // ---------------------------------------------------------------- serialise

  function Serialize(sh: Shape, v: Value): (j: Json)
    requires WellTyped(sh, v)
    ensures j != Null && Conforms(sh, j)
    decreases sh, 0, 0
  {
    match sh
    case SString => Str(v.s)
    case SNumber => Num(v.n)
    case SBool => Bool(v.b)
    case STimestamp => Num(EpochSeconds(v.ms))
    case SList(e) => Arr(SerializeItems(e, v.items))
    case SMap(e) =>
      Obj(map k | k in v.fields && v.fields[k] != VNull :: Serialize(e, v.fields[k]))
    case SStruct(ms) =>
      Obj(map k | k in ms && k in v.fields && v.fields[k] != VNull :: Serialize(ms[k], v.fields[k]))
  }

  /** The list serialiser: `filter((e) => e != null)` then `map` with the member's serialiser. */
  function SerializeItems(e: Shape, xs: seq<Value>): (r: seq<Json>)
    requires forall i :: 0 <= i < |xs| ==> xs[i] == VNull || WellTyped(e, xs[i])
    ensures |r| == |NonNulls(xs)|
    ensures forall i :: 0 <= i < |r| ==> r[i] != Null && Conforms(e, r[i])
    decreases e, 1, |xs|
  {
    if xs == [] then []
    else if xs[0] == VNull then SerializeItems(e, xs[1..])
    else [Serialize(e, xs[0])] + SerializeItems(e, xs[1..])
  }

  // ---------------------------------------------------------------- deserialise

  function Deserialize(sh: Shape, j: Json): (v: Value)
    requires Conforms(sh, j)
    ensures v != VNull && WellTyped(sh, v)
    decreases sh, 0, 0
  {
    match sh
    case SString => VStr(j.s)
    case SNumber => VNum(j.n)
    case SBool => VBool(j.b)
    case STimestamp => VDate(EpochMillis(j.n))
    case SList(e) => VList(if j.Null? then [] else DeserializeItems(e, j.items))
    case SMap(e) =>
      VObj(map k | k in j.fields && j.fields[k] != Null :: Deserialize(e, j.fields[k]))
    case SStruct(ms) =>
      VObj(map k | k in ms && k in j.fields && j.fields[k] != Null :: Deserialize(ms[k], j.fields[k]))
  }

  /** `(output || []).filter((e) => e != null).map(...)`. */
  function DeserializeItems(e: Shape, xs: seq<Json>): (r: seq<Value>)
    requires forall i :: 0 <= i < |xs| ==> xs[i] == Null || Conforms(e, xs[i])
    ensures |r| <= |xs|
    ensures forall i :: 0 <= i < |r| ==> r[i] != VNull && WellTyped(e, r[i])
    decreases e, 1, |xs|
  {
    if xs == [] then []
    else if xs[0] == Null then DeserializeItems(e, xs[1..])
    else [Deserialize(e, xs[0])] + DeserializeItems(e, xs[1..])
  }

  // ---------------------------------------------------------------- canonical forms

  /** What a typed value becomes after a trip over the wire: nulls and undeclared
      structure members are gone and dates are rounded to the second. */
  function Normalize(sh: Shape, v: Value): (r: Value)
    requires WellTyped(sh, v)
    ensures WellTyped(sh, r)
    decreases sh, 0, 0
  {
    match sh
    case SString => v
    case SNumber => v
    case SBool => v
    case STimestamp => VDate(EpochMillis(EpochSeconds(v.ms)))
    case SList(e) => VList(NormalizeItems(e, v.items))
    case SMap(e) =>
      VObj(map k | k in v.fields && v.fields[k] != VNull :: Normalize(e, v.fields[k]))
    case SStruct(ms) =>
      VObj(map k | k in ms && k in v.fields && v.fields[k] != VNull :: Normalize(ms[k], v.fields[k]))
  }

  function NormalizeItems(e: Shape, xs: seq<Value>): (r: seq<Value>)
    requires forall i :: 0 <= i < |xs| ==> xs[i] == VNull || WellTyped(e, xs[i])
    ensures |r| == |NonNulls(xs)|
    ensures forall i :: 0 <= i < |r| ==> WellTyped(e, r[i])
    decreases e, 1, |xs|
  {
    if xs == [] then []
    else if xs[0] == VNull then NormalizeItems(e, xs[1..])
    else [Normalize(e, xs[0])] + NormalizeItems(e, xs[1..])
  }

  /** What wire JSON becomes after deserialising and serialising again: nulls and
      undeclared structure members are gone, a null list is `[]`. */
  function Clean(sh: Shape, j: Json): (r: Json)
    requires Conforms(sh, j)
    decreases sh, 0, 0
  {
    match sh
    case SString => j
    case SNumber => j
    case SBool => j
    case STimestamp => j
    case SList(e) => Arr(if j.Null? then [] else CleanItems(e, j.items))
    case SMap(e) =>
      Obj(map k | k in j.fields && j.fields[k] != Null :: Clean(e, j.fields[k]))
    case SStruct(ms) =>
      Obj(map k | k in ms && k in j.fields && j.fields[k] != Null :: Clean(ms[k], j.fields[k]))
  }

  function CleanItems(e: Shape, xs: seq<Json>): seq<Json>
    requires forall i :: 0 <= i < |xs| ==> xs[i] == Null || Conforms(e, xs[i])
    decreases e, 1, |xs|
  {
    if xs == [] then []
    else if xs[0] == Null then CleanItems(e, xs[1..])
    else [Clean(e, xs[0])] + CleanItems(e, xs[1..])
  }

  // ---------------------------------------------------------------- per-pattern facts

  /** A structure member is emitted iff it is declared and neither undefined nor null. */
  lemma StructEmitsDefinedMembers(ms: map<string, Shape>, v: Value, k: string)
    requires WellTyped(SStruct(ms), v)
    ensures k in Serialize(SStruct(ms), v).fields <==> k in ms && k in v.fields && v.fields[k] != VNull
  {
  }

  /** A map keeps exactly the keys whose value is not null, in both directions. */
  lemma MapsDropNullKeys(e: Shape, v: Value, j: Json)
    requires WellTyped(SMap(e), v) && Conforms(SMap(e), j)
    ensures Serialize(SMap(e), v).fields.Keys == set k | k in v.fields && v.fields[k] != VNull
    ensures Deserialize(SMap(e), j).fields.Keys == set k | k in j.fields && j.fields[k] != Null
  {
  }

  /** The entries that survive the filter are well-typed entries of the list. */
  lemma {:induction false} NonNullsWellTyped(e: Shape, xs: seq<Value>)
    requires forall i :: 0 <= i < |xs| ==> xs[i] == VNull || WellTyped(e, xs[i])
    ensures forall i :: 0 <= i < |NonNulls(xs)| ==> WellTyped(e, NonNulls(xs)[i])
    decreases |xs|
  {
    if xs != [] {
      NonNullsWellTyped(e, xs[1..]);
    }
  }

  /** `map` with the member's serialiser, over entries that are all present. */
  function SerializeEach(e: Shape, ys: seq<Value>): (r: seq<Json>)
    requires forall i :: 0 <= i < |ys| ==> WellTyped(e, ys[i])
    ensures |r| == |ys|
    ensures forall i :: 0 <= i < |ys| ==> r[i] == Serialize(e, ys[i])
  {
    if ys == [] then [] else [Serialize(e, ys[0])] + SerializeEach(e, ys[1..])
  }

  /** The list serialiser is `filter((e) => e != null)` followed by `map`. */
  lemma {:induction false} ListSerializationIsFilterThenMap(e: Shape, xs: seq<Value>)
    requires forall i :: 0 <= i < |xs| ==> xs[i] == VNull || WellTyped(e, xs[i])
    ensures forall i :: 0 <= i < |NonNulls(xs)| ==> WellTyped(e, NonNulls(xs)[i])
    ensures SerializeItems(e, xs) == SerializeEach(e, NonNulls(xs))
    decreases |xs|
  {
    NonNullsWellTyped(e, xs);
    if xs != [] {
      ListSerializationIsFilterThenMap(e, xs[1..]);
      if xs[0] != VNull {
        var ys := NonNulls(xs[1..]);
        assert NonNulls(xs) == [xs[0]] + ys;
        assert ([xs[0]] + ys)[1..] == ys;
      }
    }
  }

  /** Drop the nulls, then serialise each entry in order. */
  lemma ListSerializationKeepsOrder(e: Shape, xs: seq<Value>)
    requires forall i :: 0 <= i < |xs| ==> xs[i] == VNull || WellTyped(e, xs[i])
    ensures |SerializeItems(e, xs)| == |NonNulls(xs)| <= |xs|
    ensures forall i :: 0 <= i < |NonNulls(xs)| ==>
              WellTyped(e, NonNulls(xs)[i]) && SerializeItems(e, xs)[i] == Serialize(e, NonNulls(xs)[i])
  {
    ListSerializationIsFilterThenMap(e, xs);
  }

  /** A list member that is null on the wire is read as the empty list (`output || []`). */
  lemma NullListReadsAsEmpty(e: Shape)
    ensures Deserialize(SList(e), Null) == VList([])
  {
  }

  // ---------------------------------------------------------------- round trips

  /** Serialising then deserialising a typed value yields its canonical form. */
  lemma {:induction false} TypedRoundTrip(sh: Shape, v: Value)
    requires WellTyped(sh, v)
    ensures Deserialize(sh, Serialize(sh, v)) == Normalize(sh, v)
    decreases sh, 1, 0
  {
    match sh
    case SString =>
    case SNumber =>
    case SBool =>
    case STimestamp =>
    case SList(e) =>
      TypedRoundTripItems(e, v.items);
    case SMap(e) =>
      TypedRoundTripMap(e, v);
    case SStruct(ms) =>
      TypedRoundTripStruct(ms, v);
  }

  lemma {:induction false} TypedRoundTripMap(e: Shape, v: Value)
    requires WellTyped(SMap(e), v)
    ensures Deserialize(SMap(e), Serialize(SMap(e), v)) == Normalize(SMap(e), v)
    decreases SMap(e), 0, 0
  {
    var lhs := Deserialize(SMap(e), Serialize(SMap(e), v)).fields;
    var rhs := Normalize(SMap(e), v).fields;
    assert lhs.Keys == rhs.Keys;
    forall k | k in lhs
      ensures lhs[k] == rhs[k]
    {
      TypedRoundTrip(e, v.fields[k]);
    }
  }

  lemma {:induction false} TypedRoundTripStruct(ms: map<string, Shape>, v: Value)
    requires WellTyped(SStruct(ms), v)
    ensures Deserialize(SStruct(ms), Serialize(SStruct(ms), v)) == Normalize(SStruct(ms), v)
    decreases SStruct(ms), 0, 0
  {
    var lhs := Deserialize(SStruct(ms), Serialize(SStruct(ms), v)).fields;
    var rhs := Normalize(SStruct(ms), v).fields;
    assert lhs.Keys == rhs.Keys;
    forall k | k in lhs
      ensures lhs[k] == rhs[k]
    {
      TypedRoundTrip(ms[k], v.fields[k]);
    }
  }

  lemma {:induction false} TypedRoundTripItems(e: Shape, xs: seq<Value>)
    requires forall i :: 0 <= i < |xs| ==> xs[i] == VNull || WellTyped(e, xs[i])
    ensures DeserializeItems(e, SerializeItems(e, xs)) == NormalizeItems(e, xs)
    decreases e, 1, |xs|
  {
    if xs != [] {
      TypedRoundTripItems(e, xs[1..]);
      if xs[0] != VNull {
        TypedRoundTrip(e, xs[0]);
        var rest := SerializeItems(e, xs[1..]);
        assert ([Serialize(e, xs[0])] + rest)[1..] == rest;
      }
    }
  }

  /** Deserialising then serialising wire JSON yields its cleaned form; in
      particular whole epoch seconds come back unchanged. */
  lemma {:induction false} WireRoundTrip(sh: Shape, j: Json)
    requires Conforms(sh, j)
    ensures Serialize(sh, Deserialize(sh, j)) == Clean(sh, j)
    decreases sh, 1, 0
  {
    match sh
    case SString =>
    case SNumber =>
    case SBool =>
    case STimestamp =>
      SecondsRoundTrip(j.n);
    case SList(e) =>
      if !j.Null? {
        WireRoundTripItems(e, j.items);
      }
    case SMap(e) =>
      WireRoundTripMap(e, j);
    case SStruct(ms) =>
      WireRoundTripStruct(ms, j);
  }

  lemma {:induction false} WireRoundTripMap(e: Shape, j: Json)
    requires Conforms(SMap(e), j)
    ensures Serialize(SMap(e), Deserialize(SMap(e), j)) == Clean(SMap(e), j)
    decreases SMap(e), 0, 0
  {
    var lhs := Serialize(SMap(e), Deserialize(SMap(e), j)).fields;
    var rhs := Clean(SMap(e), j).fields;
    assert lhs.Keys == rhs.Keys;
    forall k | k in lhs
      ensures lhs[k] == rhs[k]
    {
      WireRoundTrip(e, j.fields[k]);
    }
  }

  lemma {:induction false} WireRoundTripStruct(ms: map<string, Shape>, j: Json)
    requires Conforms(SStruct(ms), j)
    ensures Serialize(SStruct(ms), Deserialize(SStruct(ms), j)) == Clean(SStruct(ms), j)
    decreases SStruct(ms), 0, 0
  {
    var lhs := Serialize(SStruct(ms), Deserialize(SStruct(ms), j)).fields;
    var rhs := Clean(SStruct(ms), j).fields;
    assert lhs.Keys == rhs.Keys;
    forall k | k in lhs
      ensures lhs[k] == rhs[k]
    {
      WireRoundTrip(ms[k], j.fields[k]);
    }
  }

  lemma {:induction false} WireRoundTripItems(e: Shape, xs: seq<Json>)
    requires forall i :: 0 <= i < |xs| ==> xs[i] == Null || Conforms(e, xs[i])
    ensures SerializeItems(e, DeserializeItems(e, xs)) == CleanItems(e, xs)
    decreases e, 1, |xs|
  {
    if xs != [] {
      WireRoundTripItems(e, xs[1..]);
      if xs[0] != Null {
        WireRoundTrip(e, xs[0]);
        var rest := DeserializeItems(e, xs[1..]);
        assert ([Deserialize(e, xs[0])] + rest)[1..] == rest;
      }
    }
  }
}

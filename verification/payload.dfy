/**
 The payload transformer: `getAttribute` flattens buffer-like values into
 plain arrays, and `transformPayload` copies a uniform or attribute mapping
 one level deep, dropping function-valued sub-fields, so that the result can
 be posted to the inspector.
 */
module Payload {
  import opened Values

  /** The plain-array copy of a typed buffer's elements, in order. */
  function NumsToArr(nums: seq<int>): (r: seq<Value>)
    ensures |r| == |nums|
    ensures forall i :: 0 <= i < |nums| ==> r[i] == Num(nums[i])
  {
    seq(|nums|, i requires 0 <= i < |nums| => Num(nums[i]))
  }

  /** `Array.prototype.slice.call(v)` on a buffer-like value. */
  function Slice(v: Value): Value
    requires IsArrayLike(v)
  {
    match v
    case TypedArr(_, nums) => Arr(NumsToArr(nums))
    case Arr(elems) => Arr(elems)
  }

  /**
   `getAttribute`: a value whose type tag includes "Array" becomes a plain
   array of the same elements in the same order; anything else is returned
   as it is.
   */
  function GetAttribute(v: Value): (r: Value)
    ensures v.TypedArr? ==>
              r.Arr? && |r.elems| == |v.nums| &&
              forall i :: 0 <= i < |v.nums| ==> r.elems[i] == Num(v.nums[i])
    ensures !v.TypedArr? ==> r == v
  {
    if Includes(TypeName(v), "Array") then Slice(v) else v
  }

  /** The sub-keys of a plain object that `transformPayload` keeps. */
  function KeptKeys(fields: map<string, Value>): set<string> {
    set k | k in fields && !fields[k].Func?
  }

  /**
   One top-level field of `transformPayload`: a plain object is copied
   without its function-valued sub-fields, each kept sub-value flattened;
   any other value is flattened directly.
   */
  function TransformField(v: Value): (r: Value)
    ensures v.Obj? ==> r.Obj? && r.fields.Keys == KeptKeys(v.fields)
    ensures v.Obj? ==>
              forall k :: k in r.fields ==> r.fields[k] == GetAttribute(v.fields[k])
    ensures !v.Obj? ==> r == GetAttribute(v)
  {
    if TypeName(v) == "Object" then
      Obj(map k | k in v.fields && !v.fields[k].Func? :: GetAttribute(v.fields[k]))
    else
      GetAttribute(v)
  }

  /** `transformPayload`: the field-by-field copy of a mapping. */
  function TransformPayload(payload: map<string, Value>): (r: map<string, Value>)
    ensures r.Keys == payload.Keys
    ensures forall k :: k in payload && payload[k].TypedArr? ==> r[k] == Arr(NumsToArr(payload[k].nums))
    ensures forall k :: k in payload && !payload[k].TypedArr? && !payload[k].Obj? ==> r[k] == payload[k]
    ensures forall k :: k in payload && payload[k].Obj? ==>
              && r[k].Obj?
              && r[k].fields.Keys == KeptKeys(payload[k].fields)
              && forall sub :: sub in r[k].fields ==>
                   r[k].fields[sub] == GetAttribute(payload[k].fields[sub])
  {
    map k | k in payload :: TransformField(payload[k])
  }

  /** Flattening twice is flattening once. */
  lemma GetAttributeIdempotent(v: Value)
    ensures GetAttribute(GetAttribute(v)) == GetAttribute(v)
  {
  }

  /** A transformed field is a fixed point of the field transform. */
  lemma TransformFieldIdempotent(v: Value)
    ensures TransformField(TransformField(v)) == TransformField(v)
  {
    if v.Obj? {
      var once := TransformField(v);
      var twice := TransformField(once);
      forall k | k in once.fields
        ensures GetAttribute(once.fields[k]) == once.fields[k]
        ensures !once.fields[k].Func?
      {
        GetAttributeIdempotent(v.fields[k]);
      }
      assert twice.fields.Keys == once.fields.Keys;
    } else {
      GetAttributeIdempotent(v);
    }
  }

  /** `transformPayload(transformPayload(p)) == transformPayload(p)`. */
  lemma {:induction false} TransformIdempotent(payload: map<string, Value>)
    ensures TransformPayload(TransformPayload(payload)) == TransformPayload(payload)
  {
    var once := TransformPayload(payload);
    forall k | k in once
      ensures TransformField(once[k]) == once[k]
    {
      TransformFieldIdempotent(payload[k]);
    }
  }

  /**
   Sub-values are flattened but not recursed into: a sub-field that is itself
   a plain object reaches the result unchanged, functions inside it included.
   */
  lemma NestedObjectsPassThrough(payload: map<string, Value>, k: string, sub: string)
    requires k in payload && payload[k].Obj?
    requires sub in payload[k].fields && payload[k].fields[sub].Obj?
    ensures sub in TransformPayload(payload)[k].fields
    ensures TransformPayload(payload)[k].fields[sub] == payload[k].fields[sub]
  {
  }

  /** What the transformer guarantees the transport: no typed buffer at the
      first two levels and no function among the sub-fields of an object. */
  ghost predicate TransportReady(payload: map<string, Value>) {
    forall k :: k in payload ==>
      !payload[k].TypedArr? &&
      (payload[k].Obj? ==>
         forall sub :: sub in payload[k].fields ==>
           !payload[k].fields[sub].TypedArr? && !payload[k].fields[sub].Func?)
  }

  lemma TransformIsTransportReady(payload: map<string, Value>)
    ensures TransportReady(TransformPayload(payload))
  {
  }

  /** A mapping with no plain objects and no typed buffers at its top level. */
  ghost predicate AlreadyFlat(payload: map<string, Value>) {
    forall k :: k in payload ==> !payload[k].Obj? && !payload[k].TypedArr?
  }

  /** An already flat mapping passes through the transformer unchanged. */
  lemma FlatPayloadUnchanged(payload: map<string, Value>)
    requires AlreadyFlat(payload)
    ensures TransformPayload(payload) == payload
  {
  }

  /**
   A worked case: a typed buffer at the top level and one inside a plain
   object are both flattened, and the function-valued sub-field is dropped.
   */
  lemma MixedPayloadExample()
    ensures TransformPayload(map[
              "pos" := TypedArr(Float32, [1, 2, 3]),
              "meta" := Obj(map["fn" := Func("fn"), "ok" := Num(2), "nested" := TypedArr(Float32, [4])])])
            == map[
              "pos" := Arr([Num(1), Num(2), Num(3)]),
              "meta" := Obj(map["ok" := Num(2), "nested" := Arr([Num(4)])])]
  {
    var meta := map["fn" := Func("fn"), "ok" := Num(2), "nested" := TypedArr(Float32, [4])];
    var payload := map["pos" := TypedArr(Float32, [1, 2, 3]), "meta" := Obj(meta)];
    assert KeptKeys(meta) == {"ok", "nested"};
    assert NumsToArr([1, 2, 3]) == [Num(1), Num(2), Num(3)];
    assert NumsToArr([4]) == [Num(4)];
    var r := TransformPayload(payload);
    assert r["meta"] == Obj(map["ok" := Num(2), "nested" := Arr([Num(4)])]);
  }
}

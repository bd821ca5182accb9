/**
 The two entry points of the debug bridge: publishing a snapshot of a
 model's uniforms and attributes, and ingesting an edit sent back by the
 inspector.  The host's "inspector initialised" flag and the transport's
 throttle answer arrive as plain booleans.
 */
module Bridge {
  import opened Values
  import opened Payload
  import opened Paths
  import opened Overrides
  import opened Registry

  /**
   `view` is the transformed right-biased merge of `base` and `top`: every key
   of either, with the value from `top` where both have one.
   */
  ghost predicate MergedView(view: map<string, Value>, base: map<string, Value>, top: map<string, Value>) {
    && view.Keys == base.Keys + top.Keys
    && (forall k :: k in top ==> view[k] == TransformField(top[k]))
    && (forall k :: k in base && k !in top ==> view[k] == TransformField(base[k]))
  }

  /**
   The one batched update a publish of `m` sends: the merged uniforms under
   "objects.uniforms" and the merged attributes under "objects.attributes".
   */
  ghost predicate IsSnapshot(ev: Event, m: Model, uniforms: map<string, Value>) {
    && ev.MultiUpdate?
    && ev.channel == Channel
    && ev.key == m.id
    && |ev.updates| == 2
    && ev.updates[0].path == "objects.uniforms"
    && MergedView(ev.updates[0].data, m.uniforms, uniforms)
    && ev.updates[1].path == "objects.attributes"
    && MergedView(ev.updates[1].data, m.geometryAttributes, m.attributes)
  }

  /**
   `logModel`: unless the bridge is uninitialised or the throttle suppresses
   the call, publish one snapshot of `m`, with `uniforms` overriding the
   model's own uniforms and the model's attributes overriding its geometry's.
   Recorded overrides are not applied here.
   */
  function LogModel(s: State, initialized: bool, throttled: bool, m: Model, uniforms: map<string, Value>): (s': State)
    ensures s'.models == s.models && s'.overrides == s.overrides
    ensures !initialized || throttled ==> s'.log == s.log
    ensures initialized && !throttled ==>
              && |s'.log| == |s.log| + 1
              && s'.log[..|s.log|] == s.log
              && IsSnapshot(s'.log[|s.log|], m, uniforms)
  {
    if !initialized || throttled then s
    else
      var attributesObject := m.geometryAttributes + m.attributes;
      var uniformsObject := m.uniforms + uniforms;
      var update := MultiUpdate(Channel, m.id, [
        Update("objects.uniforms", TransformPayload(uniformsObject)),
        Update("objects.attributes", TransformPayload(attributesObject))
      ]);
      s.(log := s.log + [update])
  }

  /** Whatever a publish sends has gone through the transformer: no typed
      buffers in the first two levels, no functions among sub-fields. */
  lemma SnapshotIsTransportReady(s: State, throttled: bool, m: Model, uniforms: map<string, Value>)
    requires !throttled
    ensures var s' := LogModel(s, true, throttled, m, uniforms);
            && |s'.log| == |s.log| + 1
            && s'.log[|s.log|].MultiUpdate?
            && |s'.log[|s.log|].updates| == 2
            && TransportReady(s'.log[|s.log|].updates[0].data)
            && TransportReady(s'.log[|s.log|].updates[1].data)
  {
    TransformIsTransportReady(m.uniforms + uniforms);
    TransformIsTransportReady(m.geometryAttributes + m.attributes);
  }

  /** A message from the inspector. */
  datatype EditPayload = EditPayload(itemKey: Id, kind: string, valuePath: Path, value: Value)

  /** The edit handler acts on an edit of a registered model's uniforms only. */
  predicate Accepted(s: State, e: EditPayload) {
    && e.itemKey in s.models
    && e.kind == "edit"
    && |e.valuePath| > 0
    && e.valuePath[0] == Key("uniforms")
  }

  /** The uniform write of an accepted edit stays inside what `recursiveSet` models. */
  predicate EditSafe(s: State, e: EditPayload) {
    Accepted(s, e) ==> Safe(Obj(s.models[e.itemKey].uniforms), e.valuePath[1..], e.value)
  }

  /**
   The edit handler: an accepted edit is recorded as an override for the
   path below "uniforms" (only while initialised) and written at once into
   the model's live uniforms; anything else is ignored.
   */
  function HandleEdit(s: State, initialized: bool, e: EditPayload): (s': State)
    requires EditSafe(s, e)
    ensures !Accepted(s, e) ==> s' == s
    ensures s'.log == s.log
    ensures s'.models.Keys == s.models.Keys
    ensures forall id :: id in s.models && id != e.itemKey ==> s'.models[id] == s.models[id]
    ensures Accepted(s, e) ==>
              s'.overrides == SetOverride(s.overrides, initialized, e.itemKey, e.valuePath[1..], e.value)
    ensures Accepted(s, e) ==>
              var before := s.models[e.itemKey];
              var after := s'.models[e.itemKey];
              && after.id == before.id
              && after.attributes == before.attributes
              && after.geometryAttributes == before.geometryAttributes
              && Obj(after.uniforms) == RecursiveSet(Obj(before.uniforms), e.valuePath[1..], e.value)
    ensures Consistent(s) ==> Consistent(s')
  {
    if !Accepted(s, e) then s
    else
      var valuePath := e.valuePath[1..];
      var overrides := SetOverride(s.overrides, initialized, e.itemKey, valuePath, e.value);
      var model := s.models[e.itemKey];
      var uniforms := RecursiveSet(Obj(model.uniforms), valuePath, e.value);
      s.(overrides := overrides, models := s.models[e.itemKey := model.(uniforms := uniforms.fields)])
  }

  /**
   An accepted edit that reaches its path leaves the edited value there and
   every unrelated uniform location as it was.
   */
  lemma EditTakesEffect(s: State, initialized: bool, e: EditPayload, q: Path)
    requires EditSafe(s, e) && Accepted(s, e)
    requires Reaches(Obj(s.models[e.itemKey].uniforms), e.valuePath[1..])
    ensures DeepGet(Obj(HandleEdit(s, initialized, e).models[e.itemKey].uniforms), e.valuePath[1..]) == e.value
    ensures !(e.valuePath[1..] <= q) && !(q <= e.valuePath[1..]) ==>
              DeepGet(Obj(HandleEdit(s, initialized, e).models[e.itemKey].uniforms), q)
              == DeepGet(Obj(s.models[e.itemKey].uniforms), q)
  {
    var before := Obj(s.models[e.itemKey].uniforms);
    SetWritesValue(before, e.valuePath[1..], e.value);
    if !(e.valuePath[1..] <= q) && !(q <= e.valuePath[1..]) {
      SetFrame(before, e.valuePath[1..], e.value, q);
    }
  }

  /**
   The recorded override reproduces the live edit: for a model with no
   earlier overrides, replaying the store onto the uniforms it had before the
   edit gives the uniforms it has after.
   */
  lemma EditReplayAgrees(s: State, e: EditPayload)
    requires EditSafe(s, e) && Accepted(s, e)
    requires e.itemKey != "" && e.itemKey !in s.overrides
    ensures var s' := HandleEdit(s, true, e);
            && e.itemKey in s'.overrides
            && ReplaySafe(Obj(s.models[e.itemKey].uniforms), s'.overrides[e.itemKey])
            && GetOverrides(s'.overrides, true, e.itemKey, Obj(s.models[e.itemKey].uniforms))
               == Obj(s'.models[e.itemKey].uniforms)
  {
    var s' := HandleEdit(s, true, e);
    var before := Obj(s.models[e.itemKey].uniforms);
    var entries := [Override(e.valuePath[1..], e.value)];
    assert s'.overrides[e.itemKey] == entries;
    assert entries[1..] == [];
    assert ReplaySafe(before, entries);
    assert Replay(before, entries) == RecursiveSet(before, e.valuePath[1..], e.value);
  }
}

/**
 A worked session of the bridge: model "m1" with uniform color [1, 1, 1] is
 registered, the inspector sets color[0] to 0, and the live uniforms become
 [0, 1, 1].  Uniforms recomputed from scratch get the edit back from the
 override store, so the next snapshot shows [0, 1, 1]; a throttled publish
 sends nothing.
 */
module Scenario {
  import opened Values
  import opened Payload
  import opened Paths
  import opened Overrides
  import opened Registry
  import opened Bridge

  const Ones: Value := Arr([Num(1), Num(1), Num(1)])
  const Edited: Value := Arr([Num(0), Num(1), Num(1)])
  const ColorPath: Path := [Key("color"), Index(0)]
  const M1: Model := Model("m1", map["color" := Ones], map[], map[])
  const Registered: State := AddModel(State(map[], map[], []), M1)
  const Edit: EditPayload := EditPayload("m1", "edit", [Key("uniforms")] + ColorPath, Num(0))

  /** Writing 0 at color[0] of {color: [1, 1, 1]}. */
  lemma WriteColor()
    ensures Safe(Obj(map["color" := Ones]), ColorPath, Num(0))
    ensures RecursiveSet(Obj(map["color" := Ones]), ColorPath, Num(0)) == Obj(map["color" := Edited])
  {
    var uniforms := Obj(map["color" := Ones]);
    assert Get(uniforms, Key("color")) == Ones;
    assert ColorPath[1..] == [Index(0)];
    assert Ones.elems[0 := Num(0)] == Edited.elems;
  }

  /** The edit is accepted, changes the live color and records one override. */
  lemma EditStep()
    ensures EditSafe(Registered, Edit)
    ensures HandleEdit(Registered, true, Edit).models["m1"].uniforms == map["color" := Edited]
    ensures HandleEdit(Registered, true, Edit).overrides == map["m1" := [Override(ColorPath, Num(0))]]
    ensures HandleEdit(Registered, true, Edit).log == [ListItem(Channel, "m1")]
  {
    assert Edit.valuePath[1..] == ColorPath;
    WriteColor();
  }

  /** Recomputed uniforms {color: [1, 1, 1]} get the edit back from the store. */
  lemma ReplayStep()
    ensures ReplaySafe(Obj(map["color" := Ones]), [Override(ColorPath, Num(0))])
    ensures GetOverrides(map["m1" := [Override(ColorPath, Num(0))]], true, "m1", Obj(map["color" := Ones]))
            == Obj(map["color" := Edited])
  {
    WriteColor();
    var entries := [Override(ColorPath, Num(0))];
    assert entries[1..] == [];
    var written := RecursiveSet(Obj(map["color" := Ones]), ColorPath, Num(0));
    assert Replay(Obj(map["color" := Ones]), entries) == Replay(written, []);
  }

  /** The snapshot of the edited model with the replayed uniforms shows [0, 1, 1]. */
  lemma PublishStep(s: State)
    requires s.log == [ListItem(Channel, "m1")]
    ensures var m := Model("m1", map["color" := Edited], map[], map[]);
            && LogModel(s, true, false, m, map["color" := Edited]).log
               == [ListItem(Channel, "m1"),
                   MultiUpdate(Channel, "m1", [Update("objects.uniforms", map["color" := Edited]),
                                               Update("objects.attributes", map[])])]
            && LogModel(s, true, true, m, map["color" := Edited]).log == s.log
  {
    var u := map["color" := Edited];
    assert u + u == u;
    assert TransformPayload(u) == u;
    var empty: map<string, Value> := map[];
    assert empty + empty == empty;
    assert TransformPayload(empty) == empty;
  }

  /** The whole session, step after step. */
  lemma EditThenPublish()
    ensures EditSafe(Registered, Edit)
    ensures var s2 := HandleEdit(Registered, true, Edit);
            && s2.models["m1"] == Model("m1", map["color" := Edited], map[], map[])
            && ReplaySafe(Obj(map["color" := Ones]), s2.overrides["m1"])
            && var replayed := GetOverrides(s2.overrides, true, "m1", Obj(map["color" := Ones]));
               && replayed == Obj(map["color" := Edited])
               && LogModel(s2, true, false, s2.models["m1"], replayed.fields).log
                  == [ListItem(Channel, "m1"),
                      MultiUpdate(Channel, "m1", [Update("objects.uniforms", map["color" := Edited]),
                                                  Update("objects.attributes", map[])])]
  {
    EditStep();
    ReplayStep();
    PublishStep(HandleEdit(Registered, true, Edit));
  }

  /**
   Writing at `a[0][1]` of `{a: 5}` reads `(5)[0]`, which is `undefined`, and
   stops there.  (Writing at `a[0]` would assign a property of the number 5,
   which module code rejects.)
   */
  lemma WriteThroughNumber()
    ensures Safe(Obj(map["a" := Num(5)]), [Key("a"), Index(0), Index(1)], Num(1))
    ensures RecursiveSet(Obj(map["a" := Num(5)]), [Key("a"), Index(0), Index(1)], Num(1))
            == Obj(map["a" := Num(5)])
    ensures !Safe(Obj(map["a" := Num(5)]), [Key("a"), Index(0)], Num(1))
  {
    var path := [Key("a"), Index(0), Index(1)];
    assert Get(Obj(map["a" := Num(5)]), Key("a")) == Num(5);
    assert path[1..] == [Index(0), Index(1)];
    assert path[1..][1..] == [Index(1)];
    assert Get(Num(5), Index(0)) == Undefined;
    assert [Key("a"), Index(0)][1..] == [Index(0)];
  }

  /**
   A number a `Uint8Array` element holds is written as it is: 255 at `c[0]` of
   `{c: Uint8Array[0]}` reads back as 255.  The number 256 would be stored as
   0, and that write is excluded.
   */
  lemma WriteIntoByteBuffer()
    ensures Safe(Obj(map["c" := TypedArr(Uint8, [0])]), [Key("c"), Index(0)], Num(255))
    ensures RecursiveSet(Obj(map["c" := TypedArr(Uint8, [0])]), [Key("c"), Index(0)], Num(255))
            == Obj(map["c" := TypedArr(Uint8, [255])])
    ensures !Safe(Obj(map["c" := TypedArr(Uint8, [0])]), [Key("c"), Index(0)], Num(256))
  {
    var path := [Key("c"), Index(0)];
    assert Get(Obj(map["c" := TypedArr(Uint8, [0])]), Key("c")) == TypedArr(Uint8, [0]);
    assert path[1..] == [Index(0)];
    assert [0][0 := 255] == [255];
  }
}

/**
 The process-wide state of the debug bridge and its model registry.  The
 registry is a first-registration-wins store keyed by model id; a first
 registration announces the model to the inspector with one list-item event.
 */
module Registry {
  import opened Values
  import opened Overrides

  /** The inspector channel every event of the bridge is sent on. */
  const Channel: string := "luma.gl"

  /**
   A renderable model as the bridge sees it: its id, its uniforms (what
   `getUniforms` returns and `setUniforms` replaces), its own attributes and
   the attributes of its geometry.
   */
  datatype Model = Model(
    id: Id,
    uniforms: map<string, Value>,
    attributes: map<string, Value>,
    geometryAttributes: map<string, Value>)

  /** One entry of a batched update: a logical path and the data published there. */
  datatype Update = Update(path: string, data: map<string, Value>)

  /** The calls the bridge makes into the inspector transport. */
  datatype Event =
    | ListItem(channel: string, key: Id)
    | MultiUpdate(channel: string, key: Id, updates: seq<Update>)

  /** Registered models, recorded overrides, and every event sent so far. */
  datatype State = State(models: map<Id, Model>, overrides: Store, log: seq<Event>)

  /** Each registered model is filed under its own id. */
  ghost predicate Consistent(s: State) {
    forall id :: id in s.models ==> s.models[id].id == id
  }

  /**
   `addModel`: a model whose id is already registered is ignored; otherwise
   it is stored under its id and announced once.
   */
  function AddModel(s: State, m: Model): (s': State)
    ensures m.id in s.models ==> s' == s
    ensures m.id !in s.models ==>
              && s'.models.Keys == s.models.Keys + {m.id}
              && s'.models[m.id] == m
              && s'.log == s.log + [ListItem(Channel, m.id)]
    ensures forall id :: id in s.models ==> id in s'.models && s'.models[id] == s.models[id]
    ensures s'.overrides == s.overrides
    ensures Consistent(s) ==> Consistent(s')
  {
    if m.id in s.models then s
    else s.(models := s.models[m.id := m], log := s.log + [ListItem(Channel, m.id)])
  }

  /** `removeModel`: forget the model under `id`, if there is one. */
  function RemoveModel(s: State, id: Id): (s': State)
    ensures s'.models.Keys == s.models.Keys - {id}
    ensures forall other :: other in s'.models ==> s'.models[other] == s.models[other]
    ensures id !in s.models ==> s' == s
    ensures s'.overrides == s.overrides && s'.log == s.log
    ensures Consistent(s) ==> Consistent(s')
  {
    s.(models := s.models - {id})
  }

  /**
   Registering two models with the same id keeps the first and announces
   it exactly once.
   */
  lemma AddFirstWins(s: State, first: Model, second: Model)
    requires first.id !in s.models && second.id == first.id
    ensures AddModel(AddModel(s, first), second).models[first.id] == first
    ensures AddModel(AddModel(s, first), second).log == s.log + [ListItem(Channel, first.id)]
  {
  }

  /** Removing a freshly added model restores the registry; the announcement stays sent. */
  lemma RemoveUndoesAdd(s: State, m: Model)
    requires m.id !in s.models
    ensures RemoveModel(AddModel(s, m), m.id) == s.(log := s.log + [ListItem(Channel, m.id)])
  {
    assert s.models[m.id := m] - {m.id} == s.models;
  }
}

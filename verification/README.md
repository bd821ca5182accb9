# luma.gl inspector bridge — a Dafny model

This project models the debug bridge between luma.gl and the Seer inspector
(`src/debug/seer-integration.js`).  The bridge does five things:

- It keeps a registry of live models. The first registration of an id wins and is announced to the inspector once.
- It turns a model's uniforms and attributes into a payload that can be posted to the inspector. Typed buffers become plain arrays. Function-valued sub-fields are dropped.
- It records edits made in the inspector as per-model overrides. Overrides are recorded only while the inspector is initialised.
- It replays those overrides onto a uniforms object with a best-effort nested property write (`recursiveSet`).
- It publishes snapshots (`logModel`) and handles edit messages coming back from the inspector.

Values are the immutable datatype `Values.Value`: `undefined`, `null`, booleans, numbers, strings, opaque functions, typed buffers, plain arrays and plain objects.
The process-wide state is the record `Registry.State`. It holds the registry, the override store and the log of events sent to the inspector.
Every operation is a pure function from state to state.
JavaScript mutates objects in place. Here the mutated root is returned instead, with the containers along the path rebuilt.

Modules:

| file | module | models |
|---|---|---|
| values.dfy | `Values` | the value datatype, truthiness, `getType` and the "Array" sniffing |
| payload.dfy | `Payload` | `getAttribute`, `transformPayload` |
| paths.dfy | `Paths` | `recursiveSet`, and the read observers `Get`/`DeepGet` used to state it |
| overrides.dfy | `Overrides` | `setOverride`, `getOverrides` and its `forEach` replay |
| registry.dfy | `Registry` | the bridge state, `addModel`, `removeModel` |
| bridge.dfy | `Bridge` | `logModel`, the `listenFor('luma.gl', …)` edit handler |
| scenario.dfy | `Scenario` | one worked session: register, edit, replay, publish |

Three behaviours of the code that a reader might not expect:

- Overrides are not deduplicated by path. The store is a JavaScript `Map` keyed by array identity, and every edit passes a fresh `slice` of the path. So two edits of the same path are two entries, replayed in insertion order; the later one wins on replay (`Overrides.SetTwiceLastWins`).
- A top-level function-valued field passes through `transformPayload` unchanged. Only sub-fields of a plain object are filtered.
- `logModel` does not apply recorded overrides. The caller applies them with `getOverrides` before publishing; the worked session in `Scenario` does so.

## Model

| member | source | states |
|---|---|---|
| Values.TypeName | src/debug/seer-integration.js:22-28 | `getType`: the tag includes "Array" exactly for typed buffers and plain arrays, so the string sniffing is a variant check; the tag is "Object" exactly for plain objects |
| Payload.GetAttribute | src/debug/seer-integration.js:27-33 | a typed buffer becomes a plain array with the same numbers in the same order; every other value, plain arrays included, comes back equal |
| Payload.TransformField | src/debug/seer-integration.js:42-48 | a plain object keeps exactly its non-function sub-keys, each sub-value flattened; any other value is flattened |
| Payload.TransformPayload | src/debug/seer-integration.js:39-52 | the result has exactly the input's keys; typed buffers become plain arrays; other non-object values (functions included) are unchanged; a plain object keeps exactly its non-function sub-keys, each flattened |
| Payload.GetAttributeIdempotent | src/debug/seer-integration.js:27-33 | flattening a flattened value changes nothing |
| Payload.TransformFieldIdempotent | src/debug/seer-integration.js:42-48 | transforming a transformed field changes nothing |
| Payload.TransformIdempotent | src/debug/seer-integration.js:39-52 | `transformPayload(transformPayload(p)) == transformPayload(p)` |
| Payload.NestedObjectsPassThrough | src/debug/seer-integration.js:43-45 | a plain object two levels deep reaches the result unchanged, functions inside it included |
| Payload.TransformIsTransportReady | src/debug/seer-integration.js:39-52 | no typed buffer in the first two levels and no function among an object's sub-fields survive |
| Payload.FlatPayloadUnchanged | src/debug/seer-integration.js:39-52 | a mapping without plain objects and typed buffers at its top level is returned equal |
| Payload.MixedPayloadExample | src/debug/seer-integration.js:39-52 | `{pos: Float32Array[1,2,3], meta: {fn, ok: 2, nested: Float32Array[4]}}` becomes `{pos: [1,2,3], meta: {ok: 2, nested: [4]}}` |
| Paths.Put | src/debug/seer-integration.js:89 | an assignment `obj[key] = value` (into a typed buffer only a number its element kind holds exactly) makes the key read as the value, leaves every other key reading as before, and keeps the container's kind and length |
| Paths.RecursiveSet | src/debug/seer-integration.js:81-91 | no change on a falsy root, nor on a number, boolean or other non-container root, nor when the first segment of a longer path reads as falsy, nor whenever the path is not reached; the root keeps its kind; an object root gains a key only when the path has one segment |
| Paths.SetWritesValue | src/debug/seer-integration.js:81-91 | when every container on the way is truthy, the path afterwards reads as the written value |
| Paths.SetFrame | src/debug/seer-integration.js:81-91 | every location that is neither a prefix nor an extension of the path reads the same after the write |
| Paths.SetKeepsPath | src/debug/seer-integration.js:81-91 | after a write, the same path is still writable and is reached exactly when it was before |
| Overrides.SetOverride | src/debug/seer-integration.js:99-110 | nothing changes unless initialised; otherwise the id's collection is created on first use and the entry is added after the existing ones; other ids are untouched |
| Overrides.GetOverrides | src/debug/seer-integration.js:115-128 | no change when not initialised, when the id is falsy, or when no overrides exist for it; otherwise the replay of the id's entries |
| Overrides.ApplyOverrides | src/debug/seer-integration.js:125-127 | the `forEach` loop applies the entries one by one, first recorded first, and computes the replay |
| Overrides.ReplayConcat | src/debug/seer-integration.js:125-127 | replaying a concatenation replays the first part and then the second, and is defined exactly when both parts are |
| Overrides.ReplayFrame | src/debug/seer-integration.js:125-127 | replaying entries that write neither on the way to a location nor beneath it leaves that location as it was |
| Overrides.LastWriteWins | src/debug/seer-integration.js:125-127 | the last recorded entry for a path decides what a replay leaves at that path, whatever later entries at unrelated paths follow it |
| Overrides.SetTwiceLastWins | src/debug/seer-integration.js:99-127 | two edits of the same path are two entries, and the replay leaves the second value there |
| Registry.AddModel | src/debug/seer-integration.js:10-17 | a known id leaves the whole state unchanged; a new id is stored with that model and announced with one list-item event; other models and overrides are untouched; each model stays filed under its own id |
| Registry.RemoveModel | src/debug/seer-integration.js:74-76 | exactly that id is removed, absence is a no-op, and overrides and events are untouched |
| Registry.AddFirstWins | src/debug/seer-integration.js:10-17 | adding two models with the same id keeps the first and sends a single list-item event |
| Registry.RemoveUndoesAdd | src/debug/seer-integration.js:74-76 | removing a freshly added model restores the registry |
| Bridge.LogModel | src/debug/seer-integration.js:57-69 | nothing is sent when not initialised or throttled; otherwise exactly one batched update is sent, holding the transformed right-biased merges of the uniforms and of the attributes under their two paths; registry and overrides are untouched |
| Bridge.SnapshotIsTransportReady | src/debug/seer-integration.js:57-69 | both payloads of a published snapshot are transport-ready |
| Bridge.HandleEdit | src/debug/seer-integration.js:133-145 | an edit is ignored unless the model is registered, the type is "edit" and the path starts with "uniforms"; otherwise `setOverride` records the path below "uniforms" (a no-op while uninitialised) and `recursiveSet` writes the model's live uniforms at that path even while uninitialised; other models, the model's attributes and the event log are untouched, and each model stays filed under its own id |
| Bridge.EditTakesEffect | src/debug/seer-integration.js:139-144 | after an accepted edit the live uniforms read the edited value at the path and are unchanged elsewhere |
| Bridge.EditReplayAgrees | src/debug/seer-integration.js:139-144 | for a model without earlier overrides, replaying the recorded override onto the old uniforms gives the edited uniforms |
| Scenario.WriteColor | src/debug/seer-integration.js:81-91 | writing 0 at `color[0]` of `{color: [1,1,1]}` gives `{color: [0,1,1]}` |
| Scenario.EditStep | src/debug/seer-integration.js:133-145 | the edit of `uniforms.color[0]` on "m1" is accepted, updates its live uniforms and records one override |
| Scenario.ReplayStep | src/debug/seer-integration.js:115-128 | the recorded override puts the edit back into recomputed uniforms |
| Scenario.PublishStep | src/debug/seer-integration.js:57-69 | the next snapshot shows `color == [0,1,1]`; a throttled publish sends nothing |
| Scenario.WriteThroughNumber | src/debug/seer-integration.js:81-88 | writing at `a[0][1]` of `{a: 5}` reads `(5)[0]` as `undefined` and changes nothing; writing at `a[0]`, which assigns a property of the number 5, is excluded |
| Scenario.WriteIntoByteBuffer | src/debug/seer-integration.js:81-91 | writing 255 at `c[0]` of `{c: Uint8Array[0]}` stores 255; writing 256, which the buffer would store as 0, is excluded |
| Scenario.EditThenPublish | src/debug/seer-integration.js:10-145 | register, edit, replay and publish in sequence show the edited color |

## Left out

- The Seer transport (`listItem`, `multiUpdate`, `throttle`, `listenFor`) is a library outside this file. Sent calls are events appended to the state's log, and the throttle's answer is a boolean argument. The 1000 ms window is not modelled.
- `window.__SEER_INITIALIZED__` is host state and is passed in as a boolean.
- `model.getUniforms`, `model.setUniforms` and `model.geometry` belong to the model class, which is not part of this model. They are plain fields of `Registry.Model`, and `setUniforms` replaces the uniforms.
- Object identity and aliasing are not modelled. A registered model and the caller's model are the same value here, and a write never reaches another object that shares a container with the written one.
- `Object.prototype.toString` corner cases (`ArrayBuffer`, `arguments`, `Symbol.toStringTag`) are left out. The value variants stand in for the type tag.
- Number values are integers: floating point, `NaN` (also falsy in JavaScript) and `-0` are not modelled.
- Key order of `Object.keys` is not modelled; mappings are unordered.
- Model ids are strings, so the only falsy id is `""`; a numeric id `0` is not modelled.
- Prototype keys such as `"__proto__"` as model ids or field names are left out.
- Paths.RecursiveSet: only writes described by `Paths.Safe` are modelled. Left out are assigning a property of a truthy primitive (a `TypeError` in module code), reading a named property of a number or boolean (their prototype methods) or any property of a non-empty string on the way, a function on the way or as the target (`f.x = 1` sets a property, `f[0]` reads `undefined`), writing at or past the end of an array (JavaScript appends or leaves holes), a key on an array, an index on an object, a non-number into a typed buffer, a number into a typed buffer outside the range `Paths.InRange` gives for its element kind (JavaScript wraps it for the integer kinds, clamps it for `Uint8Clamped` and may round it for `Float32` and `Float64`; 256 into a `Uint8Array` is stored as 0), and the empty path, which writes the property "undefined".
- Paths.SetFrame: a numeric key and an index are different segments here (`Key("0")` and `Index(0)`), while JavaScript treats `obj["0"]` and `obj[0]` as one property; the frame is stated over the model's segments, so a write at `["0"]` is not seen by a read at `[0]`.
- Overrides.GetOverrides: the replay is modelled only when every recorded entry is a write that `Paths.Safe` describes at the moment it is applied.
- Bridge.HandleEdit: an accepted edit is modelled only when its uniform write is one that `Paths.Safe` describes.

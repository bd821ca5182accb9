/**
 The override store: per model id, the (path, value) edits made from the
 inspector, recorded only while the bridge is initialised and replayed in
 insertion order onto a uniforms object through `recursiveSet`.

 The store is keyed by path-array identity and every edit supplies a fresh
 array, so two edits of the same logical path are two entries; a sequence
 that `setOverride` appends to is that behaviour.
 */
module Overrides {
  import opened Values
  import opened Paths

  /** A model id; JavaScript object keys are strings. */
  type Id = string

  /** One recorded edit: the path below `uniforms` and the value written there. */
  datatype Override = Override(path: Path, value: Value)

  /** Process-wide overrides: id -> edits in the order they were recorded. */
  type Store = map<Id, seq<Override>>

  /**
   `setOverride`: inert until the bridge is initialised; then it creates the
   collection for `id` on first use and adds the edit after the earlier ones.
   */
  function SetOverride(store: Store, initialized: bool, id: Id, path: Path, value: Value): (r: Store)
    ensures !initialized ==> r == store
    ensures initialized ==> r.Keys == store.Keys + {id}
    ensures initialized && id !in store ==> r[id] == [Override(path, value)]
    ensures initialized && id in store ==>
              |r[id]| == |store[id]| + 1 && r[id][..|store[id]|] == store[id] &&
              r[id][|store[id]|] == Override(path, value)
    ensures forall other :: other in store && other != id ==> other in r && r[other] == store[other]
  {
    if !initialized then store
    else
      var collection := if id in store then store[id] else [];
      store[id := collection + [Override(path, value)]]
  }

  /** Replaying `entries` onto `root` stays inside what `recursiveSet` models. */
  predicate ReplaySafe(root: Value, entries: seq<Override>)
    decreases |entries|
  {
    || |entries| == 0
    || (&& Safe(root, entries[0].path, entries[0].value)
        && ReplaySafe(RecursiveSet(root, entries[0].path, entries[0].value), entries[1..]))
  }

  /** The `forEach` over the recorded edits: first recorded, first applied. */
  function Replay(root: Value, entries: seq<Override>): Value
    requires ReplaySafe(root, entries)
    decreases |entries|
  {
    if |entries| == 0 then root
    else Replay(RecursiveSet(root, entries[0].path, entries[0].value), entries[1..])
  }

  /**
   `getOverrides`: nothing happens when the bridge is not initialised, when
   the id is falsy (the empty string) or when no edits exist for it;
   otherwise every recorded edit is written into `uniforms`, in order.
   */
  function GetOverrides(store: Store, initialized: bool, id: Id, uniforms: Value): (r: Value)
    requires initialized && id != "" && id in store ==> ReplaySafe(uniforms, store[id])
    ensures !initialized || id == "" || id !in store ==> r == uniforms
    ensures initialized && id != "" && id in store ==> r == Replay(uniforms, store[id])
  {
    if !initialized || id == "" then uniforms
    else if id !in store then uniforms
    else Replay(uniforms, store[id])
  }

  /** The loop form of the replay, as `forEach` runs it. */
  method ApplyOverrides(uniforms: Value, entries: seq<Override>) returns (r: Value)
    requires ReplaySafe(uniforms, entries)
    ensures r == Replay(uniforms, entries)
  {
    r := uniforms;
    var i := 0;
    while i < |entries|
      invariant 0 <= i <= |entries|
      invariant ReplaySafe(r, entries[i..])
      invariant Replay(r, entries[i..]) == Replay(uniforms, entries)
    {
      assert entries[i..][1..] == entries[i + 1..];
      r := RecursiveSet(r, entries[i].path, entries[i].value);
      i := i + 1;
    }
    assert entries[i..] == [];
  }

  /** Replaying a concatenation replays the first part, then the second. */
  lemma {:induction false} ReplayConcat(root: Value, a: seq<Override>, b: seq<Override>)
    ensures ReplaySafe(root, a + b) <==> ReplaySafe(root, a) && ReplaySafe(Replay(root, a), b)
    ensures ReplaySafe(root, a + b) ==> Replay(root, a + b) == Replay(Replay(root, a), b)
    decreases |a|
  {
    if |a| == 0 {
      assert a + b == b;
    } else {
      assert (a + b)[0] == a[0];
      assert (a + b)[1..] == a[1..] + b;
      if Safe(root, a[0].path, a[0].value) {
        ReplayConcat(RecursiveSet(root, a[0].path, a[0].value), a[1..], b);
      }
    }
  }

  /** No entry writes on the way to `path` or beneath it. */
  ghost predicate UnrelatedTo(entries: seq<Override>, path: Path) {
    forall j :: 0 <= j < |entries| ==> !(entries[j].path <= path) && !(path <= entries[j].path)
  }

  /** Replaying entries unrelated to `q` leaves what `q` reads unchanged. */
  lemma {:induction false} ReplayFrame(root: Value, entries: seq<Override>, q: Path)
    requires ReplaySafe(root, entries)
    requires UnrelatedTo(entries, q)
    ensures DeepGet(Replay(root, entries), q) == DeepGet(root, q)
    decreases |entries|
  {
    if |entries| > 0 {
      var next := RecursiveSet(root, entries[0].path, entries[0].value);
      SetFrame(root, entries[0].path, entries[0].value, q);
      assert UnrelatedTo(entries[1..], q) by {
        forall j | 0 <= j < |entries[1..]|
          ensures !(entries[1..][j].path <= q) && !(q <= entries[1..][j].path)
        {
          assert entries[1..][j] == entries[j + 1];
        }
      }
      ReplayFrame(next, entries[1..], q);
    }
  }

  /**
   The last recorded edit of a path is the value a replay leaves there, as
   long as no later edit writes on the way to that path or beneath it.
   */
  lemma LastWriteWins(root: Value, earlier: seq<Override>, path: Path, value: Value, later: seq<Override>)
    requires ReplaySafe(root, earlier + [Override(path, value)] + later)
    requires UnrelatedTo(later, path)
    ensures ReplaySafe(root, earlier)
    ensures Reaches(Replay(root, earlier), path) ==>
              DeepGet(Replay(root, earlier + [Override(path, value)] + later), path) == value
  {
    var entry := [Override(path, value)];
    ReplayConcat(root, earlier + entry, later);
    ReplayConcat(root, earlier, entry);
    var mid := Replay(root, earlier);
    if Reaches(mid, path) {
      assert entry[1..] == [];
      var written := Replay(mid, entry);
      assert written == RecursiveSet(mid, path, value);
      SetWritesValue(mid, path, value);
      ReplayFrame(written, later, path);
    }
  }

  /**
   Editing the same path twice records two entries, not one, and a replay
   onto a uniforms object that reaches the path leaves the second value there.
   */
  lemma SetTwiceLastWins(store: Store, id: Id, path: Path, v1: Value, v2: Value, uniforms: Value)
    requires id != "" && id !in store
    requires Safe(uniforms, path, v1) && Safe(uniforms, path, v2)
    requires Reaches(uniforms, path)
    ensures var s2 := SetOverride(SetOverride(store, true, id, path, v1), true, id, path, v2);
            && s2[id] == [Override(path, v1), Override(path, v2)]
            && ReplaySafe(uniforms, s2[id])
            && DeepGet(GetOverrides(s2, true, id, uniforms), path) == v2
  {
    var s2 := SetOverride(SetOverride(store, true, id, path, v1), true, id, path, v2);
    var entries := [Override(path, v1), Override(path, v2)];
    assert s2[id] == entries;
    var mid := RecursiveSet(uniforms, path, v1);
    SetKeepsPath(uniforms, path, v1, v2);
    assert entries[1..] == [Override(path, v2)];
    assert [Override(path, v2)][1..] == [];
    assert ReplaySafe(mid, [Override(path, v2)]);
    assert ReplaySafe(uniforms, entries);
    assert Replay(uniforms, entries) == Replay(mid, [Override(path, v2)])
                                      == RecursiveSet(mid, path, v2);
    SetWritesValue(mid, path, v2);
  }
}

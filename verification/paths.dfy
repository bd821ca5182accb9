/**
 The path mutator `recursiveSet`: a best-effort write of a value at a nested
 property path.  JavaScript mutates the containers along the path in place;
 here the write returns the updated root, and the containers it passes
 through are rebuilt around the new value.
 */
module Paths {
  import opened Values

  /**
   Reading one property, `v[seg]`, as an observer: an object's own key, an
   array or typed-buffer element, `undefined` when absent.  Combinations the
   model does not describe (a key on an array, an index on an object, a
   property of a primitive) read as `undefined` too; `Readable` says where
   this agrees with JavaScript.
   */
  function Get(v: Value, seg: Segment): Value {
    match (v, seg)
    case (Obj(fields), Key(k)) => if k in fields then fields[k] else Undefined
    case (Arr(elems), Index(i)) => if i < |elems| then elems[i] else Undefined
    case (TypedArr(_, nums), Index(i)) => if i < |nums| then Num(nums[i]) else Undefined
    case _ => Undefined
  }

  /** The value reached by following a whole path. */
  function DeepGet(v: Value, path: Path): Value
    decreases |path|
  {
    if |path| == 0 then v else DeepGet(Get(v, path[0]), path[1..])
  }

  /**
   `v[seg]` is a read this model describes: a key of a plain object, or an
   index into an array, a typed buffer, a number or a boolean (the last two
   read as `undefined`, so a write through them stops there).
   */
  predicate Readable(v: Value, seg: Segment) {
    || (v.Obj? && seg.Key?)
    || ((v.Arr? || v.TypedArr? || v.Num? || v.Bool?) && seg.Index?)
  }

  /**
   `n` is stored unchanged by an element of the given kind: the integer range
   of an integer kind, and for a floating-point kind the integers its
   significand holds exactly.  Outside it JavaScript wraps (`Int8` .. `Uint32`),
   clamps (`Uint8Clamped`) or rounds (`Float32`, `Float64`) the number.
   */
  predicate InRange(kind: ArrayKind, n: int) {
    match kind
    case Int8 => -0x80 <= n < 0x80
    case Uint8 => 0 <= n < 0x100
    case Uint8Clamped => 0 <= n < 0x100
    case Int16 => -0x8000 <= n < 0x8000
    case Uint16 => 0 <= n < 0x1_0000
    case Int32 => -0x8000_0000 <= n < 0x8000_0000
    case Uint32 => 0 <= n < 0x1_0000_0000
    case Float32 => -0x100_0000 <= n <= 0x100_0000
    case Float64 => -0x20_0000_0000_0000 <= n <= 0x20_0000_0000_0000
  }

  /**
   `v[seg] = value` is a write this model describes: any key of a plain
   object, an existing element of an array, or a number the element kind
   stores unchanged into an existing element of a typed buffer.
   */
  predicate Writable(v: Value, seg: Segment, value: Value) {
    || (v.Obj? && seg.Key?)
    || (v.Arr? && seg.Index? && seg.i < |v.elems|)
    || (v.TypedArr? && seg.Index? && seg.i < |v.nums| && value.Num? && InRange(v.kind, value.n))
  }

  /** The same kind of container, and for arrays and buffers the same length. */
  predicate SameShape(a: Value, b: Value) {
    && a.Obj? == b.Obj?
    && a.Arr? == b.Arr?
    && a.TypedArr? == b.TypedArr?
    && (a.Arr? && b.Arr? ==> |a.elems| == |b.elems|)
    && (a.TypedArr? && b.TypedArr? ==> |a.nums| == |b.nums|)
  }

  /** `v[seg] = value` on a writable container. */
  function Put(v: Value, seg: Segment, value: Value): (r: Value)
    requires Writable(v, seg, value)
    ensures Get(r, seg) == value
    ensures forall other :: other != seg ==> Get(r, other) == Get(v, other)
    ensures SameShape(r, v)
  {
    match (v, seg)
    case (Obj(fields), Key(k)) => Obj(fields[k := value])
    case (Arr(elems), Index(i)) => Arr(elems[i := value])
    case (TypedArr(kind, nums), Index(i)) => TypedArr(kind, nums[i := value.n])
  }

  /**
   The calls of `recursiveSet(root, path, value)` stay inside the model: every
   root it meets on the way is falsy (the call returns at once) or a container
   it can read from, and the final assignment is writable.  This rules out an
   empty path on a truthy root, which JavaScript would turn into the property
   "undefined".
   */
  predicate Safe(root: Value, path: Path, value: Value)
    decreases |path|
  {
    || Falsy(root)
    || (|path| == 1 && Writable(root, path[0], value))
    || (|path| > 1 && Readable(root, path[0]) && Safe(Get(root, path[0]), path[1..], value))
  }

  /** Every container met before the last segment is truthy, so the write happens. */
  predicate Reaches(root: Value, path: Path)
    decreases |path|
  {
    && !Falsy(root)
    && |path| >= 1
    && (|path| == 1 || Reaches(Get(root, path[0]), path[1..]))
  }

  /**
   `recursiveSet`: nothing happens on a falsy root; with more than one
   segment left the write continues inside `root[path[0]]`, where a falsy
   value ends it; with one segment left `root[path[0]]` is assigned.  A
   truthy number or boolean on the way reads `undefined` at the next index,
   so it ends the write too; the containers on the way are rebuilt only when
   something inside them was written.
   */
  function RecursiveSet(root: Value, path: Path, value: Value): (r: Value)
    requires Safe(root, path, value)
    ensures Falsy(root) ==> r == root
    ensures |path| > 1 && Falsy(Get(root, path[0])) ==> r == root
    ensures !Reaches(root, path) ==> r == root
    ensures !(root.Obj? || root.Arr? || root.TypedArr?) ==> r == root
    ensures r.Obj? == root.Obj? && r.Arr? == root.Arr? && r.TypedArr? == root.TypedArr?
    ensures r.Obj? ==> r.fields.Keys == root.fields.Keys + (if Reaches(root, path) && |path| == 1 then {path[0].name} else {})
    decreases |path|
  {
    if Falsy(root) then root
    else if |path| > 1 then
      var child := Get(root, path[0]);
      if Falsy(child) then root
      else
        var written := RecursiveSet(child, path[1..], value);
        if written == child then root else Put(root, path[0], written)
    else
      Put(root, path[0], value)
  }

  /** When the write happens, the path now leads to the written value. */
  lemma {:induction false} SetWritesValue(root: Value, path: Path, value: Value)
    requires Safe(root, path, value)
    requires Reaches(root, path)
    ensures DeepGet(RecursiveSet(root, path, value), path) == value
    decreases |path|
  {
    var r := RecursiveSet(root, path, value);
    if |path| > 1 {
      var child := Get(root, path[0]);
      SetWritesValue(child, path[1..], value);
      assert Get(r, path[0]) == RecursiveSet(child, path[1..], value);
    } else {
      assert DeepGet(r, path) == DeepGet(Get(r, path[0]), []);
    }
  }

  /** Two paths with the same first segment are prefix-related as their tails are. */
  lemma PrefixCons(a: Path, b: Path)
    requires |a| > 0 && |b| > 0 && a[0] == b[0]
    ensures (a <= b) <==> (a[1..] <= b[1..])
  {
    if a[1..] <= b[1..] {
      assert a == [a[0]] + a[1..];
      assert b[..|a|] == [b[0]] + b[1..][..|a| - 1];
    }
  }

  /**
   Nothing else changes: every location that is neither on the way to the
   written one nor beneath it reads as before.
   */
  lemma {:induction false} SetFrame(root: Value, path: Path, value: Value, q: Path)
    requires Safe(root, path, value)
    requires !(path <= q) && !(q <= path)
    ensures DeepGet(RecursiveSet(root, path, value), q) == DeepGet(root, q)
    decreases |path|
  {
    var r := RecursiveSet(root, path, value);
    if r != root {
      assert |q| > 0;
      if q[0] != path[0] {
        assert Get(r, q[0]) == Get(root, q[0]);
      } else {
        PrefixCons(path, q);
        PrefixCons(q, path);
        var child := Get(root, path[0]);
        SetFrame(child, path[1..], value, q[1..]);
        assert Get(r, q[0]) == RecursiveSet(child, path[1..], value);
      }
    }
  }

  /**
   Writing at a path keeps that path writable for a later value and keeps
   whether it is reached: the containers along it keep their kind and length.
   */
  lemma {:induction false} SetKeepsPath(root: Value, path: Path, v1: Value, v2: Value)
    requires Safe(root, path, v1)
    requires Safe(root, path, v2)
    ensures Safe(RecursiveSet(root, path, v1), path, v2)
    ensures Reaches(RecursiveSet(root, path, v1), path) == Reaches(root, path)
    decreases |path|
  {
    var r := RecursiveSet(root, path, v1);
    if r != root {
      if |path| > 1 {
        var child := Get(root, path[0]);
        SetKeepsPath(child, path[1..], v1, v2);
        assert r == Put(root, path[0], RecursiveSet(child, path[1..], v1));
        assert SameShape(r, root);
        assert Get(r, path[0]) == RecursiveSet(child, path[1..], v1);
        assert Readable(r, path[0]);
      } else {
        assert r == Put(root, path[0], v1);
        assert SameShape(r, root);
        assert Writable(r, path[0], v2);
      }
    }
  }
}

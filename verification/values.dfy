/**
 The JSON-like values the debug bridge handles: uniform and attribute
 mappings, the typed buffers inside them, and the runtime type tag that
 `getType` reads from `Object.prototype.toString`.
 */
module Values {

  /** Element kinds of the typed numeric buffers a uniform or attribute may hold. */
  datatype ArrayKind =
    | Int8 | Uint8 | Uint8Clamped | Int16 | Uint16 | Int32 | Uint32 | Float32 | Float64

  /**
   A JavaScript value as far as the bridge can tell them apart.  `Func` is an
   opaque function (its name stands for its identity), `TypedArr` a typed
   buffer whose elements are numbers, `Arr` a plain array and `Obj` a plain
   object with its own enumerable keys.
   */
  datatype Value =
    | Undefined
    | Null
    | Bool(b: bool)
    | Num(n: int)
    | Str(s: string)
    | Func(name: string)
    | TypedArr(kind: ArrayKind, nums: seq<int>)
    | Arr(elems: seq<Value>)
    | Obj(fields: map<string, Value>)

  /** One step of a property path: a property name or an array index. */
  datatype Segment = Key(name: string) | Index(i: nat)

  type Path = seq<Segment>

  /** JavaScript truthiness: `undefined`, `null`, `false`, `0` and `""` are falsy. */
  predicate Falsy(v: Value) {
    match v
    case Undefined => true
    case Null => true
    case Bool(b) => !b
    case Num(n) => n == 0
    case Str(s) => s == ""
    case _ => false
  }

  function KindName(k: ArrayKind): string {
    match k
    case Int8 => "Int8"
    case Uint8 => "Uint8"
    case Uint8Clamped => "Uint8Clamped"
    case Int16 => "Int16"
    case Uint16 => "Uint16"
    case Int32 => "Int32"
    case Uint32 => "Uint32"
    case Float32 => "Float32"
    case Float64 => "Float64"
  }

  /** `t` occurs in `s` starting at position `i`. */
  predicate OccursAt(s: string, t: string, i: int) {
    0 <= i <= |s| - |t| && s[i..i + |t|] == t
  }

  /** `s.includes(t)`: `t` occurs as a contiguous piece of `s`. */
  predicate Includes(s: string, t: string) {
    exists i :: 0 <= i <= |s| && OccursAt(s, t, i)
  }

  /** The buffer-like values: a typed buffer or a plain array. */
  predicate IsArrayLike(v: Value) {
    v.TypedArr? || v.Arr?
  }

  /** Any string ending in `t` includes `t`. */
  lemma IncludesSuffix(s: string, t: string)
    ensures Includes(s + t, t)
  {
    var u := s + t;
    assert u[|s|..|s| + |t|] == t;
    assert OccursAt(u, t, |s|);
  }

  /** A string that includes a non-empty `t` contains the first character of `t`. */
  lemma IncludesHead(s: string, t: string)
    requires |t| > 0
    requires Includes(s, t)
    ensures t[0] in s
  {
    var i :| 0 <= i <= |s| && OccursAt(s, t, i);
    assert s[i] == s[i..i + |t|][0];
  }

  /** A string without an 'A' cannot include "Array". */
  lemma LacksArray(s: string)
    requires 'A' !in s
    ensures !Includes(s, "Array")
  {
    if Includes(s, "Array") {
      IncludesHead(s, "Array");
      assert false;
    }
  }

  /**
   `getType`: the class tag between `[object ` and `]`.  Sniffing it for
   "Array" picks out exactly the buffer-like variants, since every typed-array
   tag ends in "Array" and no other tag has an 'A'; only a plain object has
   the tag "Object".
   */
  function TypeName(v: Value): (r: string)
    ensures Includes(r, "Array") <==> IsArrayLike(v)
    ensures r == "Object" <==> v.Obj?
  {
    match v
    case Undefined => LacksArray("Undefined"); "Undefined"
    case Null => LacksArray("Null"); "Null"
    case Bool(_) => LacksArray("Boolean"); "Boolean"
    case Num(_) => LacksArray("Number"); "Number"
    case Str(_) => LacksArray("String"); "String"
    case Func(_) => LacksArray("Function"); "Function"
    case TypedArr(k, _) =>
      IncludesSuffix(KindName(k), "Array");
      var tag := KindName(k) + "Array";
      assert tag[|tag| - 1] == 'y';
      tag
    case Arr(_) =>
      IncludesSuffix("", "Array");
      assert "" + "Array" == "Array";
      "Array"
    case Obj(_) => LacksArray("Object"); "Object"
  }
}

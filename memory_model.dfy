/**
  The Memory store of lib/nconf/stores/memory.js, as functions on values.

  A store is a nested tree rooted at an object (`store`) plus the set of keys
  whose modification time it has recorded (`mtimes`; the timestamps themselves
  are not modelled). `get`, `set`, `clear` and `merge` each split their key into
  a path and walk the tree along it; the walks are the functions `Walk`,
  `Assign`, `Remove` and `MergeWalk` below, and the store operations `Get`,
  `Set`, `Clear`, `Merge` and `Reset` apply them to the root. The imperative
  class in memory.dfy is proved to compute exactly these functions.
 */
module MemoryModel {
  import opened Values
  import Keys

  /** What `get` produces: a value, `undefined`, or the TypeError that `key in target` raises on a primitive. */
  datatype Read = Undefined | Defined(value: Value) | TypeFault

  /** The fields `store` and `mtimes` of a Memory store. */
  datatype MemState = MemState(store: map<string, Value>, mtimes: set<string>)

  /** Where the walk of `merge` ended: it wrote the value, found an object to merge into, or raised a TypeError. */
  datatype Landing = Replaced | Descended | Faulted

  /** The walk of `get` (memory.js:37-47): each step needs a truthy target that has the segment. */
  function Walk(t: Value, path: seq<string>): Read
    requires |path| >= 1
    decreases |path|
  {
    if !Truthy(t) then Undefined
    else if !IsContainer(t) then TypeFault
    else if path[0] !in Props(t) then Undefined
    else if |path| == 1 then Defined(Props(t)[path[0]])
    else Walk(Props(t)[path[0]], path[1..])
  }

  /** The next target of `set` (memory.js:70-74): the existing child if it is a truthy object, else a fresh `{}`. */
  function Descend(t: Value, k: string): Value
  {
    var c := Prop(t, k);
    if c.Some? && IsContainer(c.value) then c.value else Obj(map[])
  }

  /** The walk of `set` (memory.js:68-79), with the tree rebuilt on the way back up. */
  function Assign(t: Value, path: seq<string>, v: Value): (r: Value)
    requires |path| >= 1 && IsContainer(t)
    ensures IsContainer(r) && r.Arr? == t.Arr?
    ensures Props(r).Keys == Props(t).Keys + {path[0]}
    ensures forall q | q in Props(t) && q != path[0] :: Props(r)[q] == Props(t)[q]
    decreases |path|
  {
    if |path| == 1 then Put(t, path[0], v)
    else Put(t, path[0], Assign(Descend(t, path[0]), path[1..], v))
  }

  /**
    The walk of `clear` (memory.js:100-111). `None` is the early `return` on a
    missing or falsy intermediate; a primitive has no properties, so walking on
    from one also stops, and deleting from one changes nothing.
   */
  function Remove(t: Value, path: seq<string>): (r: Option<Value>)
    requires |path| >= 1
    ensures r.Some? ==> r.value.Obj? == t.Obj? && r.value.Arr? == t.Arr?
    decreases |path|
  {
    if |path| == 1 then Some(Del(t, path[0]))
    else
      var c := Prop(t, path[0]);
      if c.None? || !Truthy(c.value) then None
      else
        match Remove(c.value, path[1..])
        case None => None
        case Some(c2) => Some(Put(t, path[0], c2))
  }

  /**
    The walk of `merge` (memory.js:145-165). Only a missing or falsy
    intermediate is replaced by `{}`. On a primitive target the write of `{}`
    is lost and the next target is `undefined`, whose next read raises a
    TypeError. At the last segment an existing object (or `null`) is merged
    into; anything else is overwritten.
   */
  function MergeWalk(t: Value, path: seq<string>, v: Value): (r: (Value, Landing))
    requires |path| >= 1
    ensures r.0.Obj? == t.Obj? && r.0.Arr? == t.Arr?
    ensures r.1 != Replaced ==> r.0 == t
    ensures t == Obj(map[]) ==> r.1 == Replaced
    decreases |path|
  {
    if |path| == 1 then
      var c := Prop(t, path[0]);
      if c.None? || !IsObjectType(c.value) || c.value.Arr? then (Put(t, path[0], v), Replaced)
      else (t, Descended)
    else if !IsContainer(t) then (t, Faulted)
    else
      var c := Prop(t, path[0]);
      var next := if c.Some? && Truthy(c.value) then c.value else Obj(map[]);
      var r' := MergeWalk(next, path[1..], v);
      assert r'.1 != Replaced ==> Put(t, path[0], r'.0) == t by {
        if r'.1 != Replaced {
          assert next == c.value;
          assert Props(t)[path[0] := c.value] == Props(t);
        }
      }
      (Put(t, path[0], r'.0), r'.1)
  }

  /** `get(key)` (memory.js:30-48). */
  function Get(m: MemState, key: string): Read
  {
    Walk(Obj(m.store), Keys.Split(key))
  }

  /** `set(key, v)` (memory.js:56-81); it always returns true. */
  function Set(m: MemState, key: string, v: Value): (r: MemState)
    ensures r.mtimes == m.mtimes + {key}
  {
    MemState(Assign(Obj(m.store), Keys.Split(key), v).props, m.mtimes + {key})
  }

  /** `clear(key)` (memory.js:88-113): the new state, and whether it returned true (else undefined). */
  function Clear(m: MemState, key: string): (r: (MemState, bool))
    ensures r.0.mtimes == m.mtimes - {key}
    ensures !r.1 ==> r.0.store == m.store
  {
    var t := Remove(Obj(m.store), Keys.Split(key));
    (MemState(if t.Some? then t.value.props else m.store, m.mtimes - {key}), t.Some?)
  }

  /**
    `merge(key, v)` (memory.js:123-170): the new state, and whether it returned
    true (else it raised a TypeError, leaving the changes made so far). The
    properties of an object merged into an existing object are merged one by
    one, each on the key `key + ':' + property`.
   */
  function Merge(m: MemState, key: string, v: Value): (r: (MemState, bool))
    ensures !IsObjectType(v) || v.Arr? ==> r == (Set(m, key, v), true)
    ensures m.mtimes + {key} <= r.0.mtimes
    decreases v, 1
  {
    if !IsObjectType(v) || v.Arr? then (Set(m, key, v), true)
    else
      var w := MergeWalk(Obj(m.store), Keys.Split(key), v);
      var m1 := MemState(w.0.props, m.mtimes + {key});
      match w.1
      case Replaced => (m1, true)
      case Faulted => (m1, false)
      case Descended =>
        if v.Null? then (m1, false)
        else MergeEach(m1, key, v.props, v.props.Keys)
  }

  /** `Object.keys(value).every(...)` of memory.js:167-169, over the keys still to merge. */
  function MergeEach(m: MemState, key: string, props: map<string, Value>, todo: set<string>): (r: (MemState, bool))
    requires todo <= props.Keys
    ensures m.mtimes <= r.0.mtimes
    decreases Obj(props), 0, |todo|
  {
    if todo == {} then (m, true)
    else
      var q := Least(todo);
      var r' := Merge(m, key + [Keys.Sep] + q, props[q]);
      if !r'.1 then r' else MergeEach(r'.0, key, props, todo - {q})
  }

  /** `reset()` (memory.js:176-180): both fields emptied; it returns true. */
  function Reset(): MemState
  {
    MemState(map[], {})
  }

  /** The keys the Env store keeps: the environment names that start with `prefix`, with the prefix cut off. */
  function Stripped(env: map<string, string>, prefix: string): set<string>
  {
    set name | name in env && prefix <= name :: name[|prefix|..]
  }

  /** The `store` the Env constructor builds (lib/nconf/stores/env.js:16-21). */
  function EnvStore(env: map<string, string>, prefix: string): (r: map<string, Value>)
    ensures r.Keys == Stripped(env, prefix)
  {
    forall k | k in Stripped(env, prefix)
      ensures prefix + k in env
    {
      var name :| name in env && prefix <= name && k == name[|prefix|..];
      assert prefix + k == name;
    }
    map k | k in Stripped(env, prefix) :: Str(env[prefix + k])
  }
}

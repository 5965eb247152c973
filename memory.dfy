/**
  The Memory store class of lib/nconf/stores/memory.js, with the Literal
  (lib/nconf/stores/literal.js) and Env (lib/nconf/stores/env.js) stores as
  its named constructors, since they inherit every method and only build a
  different initial `store`.

  Each method walks its key path with the loop of the source and is proved to
  compute the function of the same name in MemoryModel. The nested objects of
  the tree are values here, so a write at the end of a walk is carried back
  up to the root by putting each rebuilt child into its parent.
 */
module MemoryStore {
  import opened Values
  import opened MemoryModel
  import Keys

  /** The tree obtained by putting `leaf` back into `parents` along `keys`, innermost first. */
  ghost function Rebuild(parents: seq<Value>, keys: seq<string>, leaf: Value): Value
    requires |parents| == |keys|
  {
    if |parents| == 0 then leaf
    else
      var n := |parents| - 1;
      Rebuild(parents[..n], keys[..n], Put(parents[n], keys[n], leaf))
  }

  class Memory {
    /** The `type` field: "memory", "literal" or "env". */
    var kind: string
    var store: map<string, Value>
    var mtimes: set<string>

    function State(): MemState
      reads this
    {
      MemState(store, mtimes)
    }

    /** `new Memory()`: an empty store. */
    constructor ()
      ensures kind == "memory" && State() == MemState(map[], {})
    {
      kind := "memory";
      store := map[];
      mtimes := {};
    }

    /** `new Literal(seed)`: the given object, or `{}` when none is given. */
    constructor Literal(seed: Option<map<string, Value>>)
      ensures kind == "literal"
      ensures State() == MemState(if seed.Some? then seed.value else map[], {})
    {
      kind := "literal";
      store := if seed.Some? then seed.value else map[];
      mtimes := {};
    }

    /**
      `new Env(prefix)` over the environment `env`: every variable whose name
      starts with `prefix`, stored under its name without the prefix. Distinct
      names give distinct keys, so the order of the visit does not matter.
     */
    constructor Env(prefix: string, env: map<string, string>)
      ensures kind == "env"
      ensures State() == MemState(EnvStore(env, prefix), {})
    {
      var acc: map<string, Value> := map[];
      var todo := env.Keys;
      while todo != {}
        invariant todo <= env.Keys
        invariant forall k | k in acc :: prefix + k in env && prefix + k !in todo && acc[k] == Str(env[prefix + k])
        invariant forall name | name in env && name !in todo && prefix <= name :: name[|prefix|..] in acc
        decreases |todo|
      {
        var name :| name in todo;
        if prefix <= name {
          assert prefix + name[|prefix|..] == name;
          acc := acc[name[|prefix|..] := Str(env[name])];
        }
        todo := todo - {name};
        forall k | k in acc
          ensures prefix + k !in todo
        {
        }
      }
      forall k | k in EnvStore(env, prefix)
        ensures k in acc
      {
        var name :| name in env && prefix <= name && k == name[|prefix|..];
      }
      forall k | k in acc
        ensures k in EnvStore(env, prefix)
      {
        assert (prefix + k)[|prefix|..] == k;
      }
      kind := "env";
      store := acc;
      mtimes := {};
    }

    /** `get(key)`: the walk of memory.js:37-47. */
    method Get(key: string) returns (r: Read)
      ensures r == MemoryModel.Get(State(), key)
    {
      var target := Obj(store);
      var path := Keys.Split(key);
      while true
        invariant |path| >= 1
        invariant Walk(target, path) == MemoryModel.Get(State(), key)
        decreases |path|
      {
        var k := path[0];
        if !Truthy(target) {
          return Undefined;
        }
        if !IsContainer(target) {
          return TypeFault;
        }
        if k !in Props(target) {
          return Undefined;
        }
        target := Props(target)[k];
        path := path[1..];
        if |path| == 0 {
          return Defined(target);
        }
      }
    }

    /** `set(key, value)`: records the key's mtime, creates missing or non-object intermediates, writes, returns true. */
    method Set(key: string, value: Value) returns (ok: bool)
      modifies this
      ensures State() == MemoryModel.Set(old(State()), key, value) && ok
      ensures kind == old(kind)
    {
      ghost var whole := Assign(Obj(store), Keys.Split(key), value);
      mtimes := mtimes + {key};
      var target := Obj(store);
      var path := Keys.Split(key);
      var parents: seq<Value> := [];
      var keys: seq<string> := [];
      while |path| > 1
        invariant |path| >= 1 && |parents| == |keys| && IsContainer(target)
        invariant Rebuild(parents, keys, Assign(target, path, value)) == whole
        decreases |path|
      {
        var k := path[0];
        var next := Descend(target, k);
        assert parents == (parents + [target])[..|parents|] && keys == (keys + [k])[..|keys|];
        parents := parents + [target];
        keys := keys + [k];
        target := next;
        path := path[1..];
      }
      var x := Put(target, path[0], value);
      while |parents| > 0
        invariant |parents| == |keys|
        invariant Rebuild(parents, keys, x) == whole
        decreases |parents|
      {
        var n := |parents| - 1;
        x := Put(parents[n], keys[n], x);
        parents := parents[..n];
        keys := keys[..n];
      }
      store := x.props;
      ok := true;
    }

    /**
      `clear(key)`: forgets the key's mtime, then walks; a missing or falsy
      intermediate ends it early (undefined, here false), otherwise the leaf
      is deleted and it returns true.
     */
    method Clear(key: string) returns (ok: bool)
      modifies this
      ensures (State(), ok) == MemoryModel.Clear(old(State()), key)
      ensures kind == old(kind)
    {
      ghost var whole := Remove(Obj(store), Keys.Split(key));
      mtimes := mtimes - {key};
      var target := Obj(store);
      var path := Keys.Split(key);
      var parents: seq<Value> := [];
      var keys: seq<string> := [];
      while |path| > 1
        invariant |path| >= 1 && |parents| == |keys|
        invariant match Remove(target, path)
          case None => whole.None?
          case Some(y) => whole == Some(Rebuild(parents, keys, y))
        decreases |path|
      {
        var k := path[0];
        var c := Prop(target, k);
        if c.None? || !Truthy(c.value) {
          return false;
        }
        assert parents == (parents + [target])[..|parents|] && keys == (keys + [k])[..|keys|];
        parents := parents + [target];
        keys := keys + [k];
        target := c.value;
        path := path[1..];
      }
      var x := Del(target, path[0]);
      while |parents| > 0
        invariant |parents| == |keys|
        invariant whole == Some(Rebuild(parents, keys, x))
        decreases |parents|
      {
        var n := |parents| - 1;
        x := Put(parents[n], keys[n], x);
        parents := parents[..n];
        keys := keys[..n];
      }
      store := x.props;
      ok := true;
    }

    /**
      `merge(key, value)`: `set` for a non-object or an array; otherwise the
      walk creates missing or falsy intermediates, overwrites a slot that is
      not an object, and merges each property of `value` into an object slot.
      `false` stands for the TypeError the walk raises on a primitive
      intermediate, or `Object.keys(null)` raises; the changes made before it
      stay.
     */
    method Merge(key: string, value: Value) returns (ok: bool)
      modifies this
      ensures (State(), ok) == MemoryModel.Merge(old(State()), key, value)
      ensures kind == old(kind)
      decreases value
    {
      if !IsObjectType(value) || value.Arr? {
        ok := Set(key, value);
        return;
      }
      ghost var whole := MergeWalk(Obj(store), Keys.Split(key), value);
      mtimes := mtimes + {key};
      var target := Obj(store);
      var path := Keys.Split(key);
      var parents: seq<Value> := [];
      var keys: seq<string> := [];
      while |path| > 1
        invariant |path| >= 1 && |parents| == |keys|
        invariant whole.1 == MergeWalk(target, path, value).1
        invariant whole.1 == Replaced ==> whole.0 == Rebuild(parents, keys, MergeWalk(target, path, value).0)
        decreases |path|
      {
        var k := path[0];
        if !IsContainer(target) {
          return false;
        }
        var c := Prop(target, k);
        var next := if c.Some? && Truthy(c.value) then c.value else Obj(map[]);
        assert parents == (parents + [target])[..|parents|] && keys == (keys + [k])[..|keys|];
        parents := parents + [target];
        keys := keys + [k];
        target := next;
        path := path[1..];
      }
      var slot := Prop(target, path[0]);
      if slot.None? || !IsObjectType(slot.value) || slot.value.Arr? {
        var x := Put(target, path[0], value);
        while |parents| > 0
          invariant |parents| == |keys|
          invariant whole.0 == Rebuild(parents, keys, x)
          decreases |parents|
        {
          var n := |parents| - 1;
          x := Put(parents[n], keys[n], x);
          parents := parents[..n];
          keys := keys[..n];
        }
        store := x.props;
        return true;
      }
      if value.Null? {
        return false;
      }
      var todo := value.props.Keys;
      while todo != {}
        invariant todo <= value.props.Keys && kind == old(kind)
        invariant MergeEach(State(), key, value.props, todo) == MemoryModel.Merge(old(State()), key, value)
        decreases |todo|
      {
        var q := Least(todo);
        var b := Merge(key + [Keys.Sep] + q, value.props[q]);
        if !b {
          return false;
        }
        todo := todo - {q};
      }
      ok := true;
    }

    /** `reset()`: empties the store and the mtimes; returns true. */
    method Reset() returns (ok: bool)
      modifies this
      ensures State() == MemoryModel.Reset() && ok
      ensures kind == old(kind)
    {
      mtimes := {};
      store := map[];
      ok := true;
    }
  }
}

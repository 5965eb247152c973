/**
  The single-store front of lib/nconf.js: one active store `nconf.store`,
  chosen by `use`, to which `get`, `set`, `clear` and `reset` are forwarded,
  and the capability dispatch of `load` and `save`. The store factory and the
  stores' own load/save I/O are parameters.
 */
module Front {
  import opened Values
  import opened MemoryModel
  import opened Stores
  import Providers
  import MemoryLaws

  /** `nconf.load(callback)` (lib/nconf.js:71-92): the store afterwards and how the call completed. */
  function LoadFront(s: Store, backend: Backend, callback: Arg): (r: (Store, Completion))
    ensures !Given(callback) && s.caps.loadSync ==>
      r == (match backend.loadSync(s)
            case Done(s', d) => (s', Returned(d))
            case Failed(e) => (s, Thrown(e)))
    ensures (Given(callback) || !s.caps.loadSync) && !s.caps.load ==>
      r == (s, if Given(callback) then Deliver(callback, Some(NoLoad(s.kind)), None) else Thrown(NoLoad(s.kind)))
    ensures callback.Fn? ==> r.1.CalledBack?
  {
    if !Given(callback) && s.caps.loadSync then
      match backend.loadSync(s)
      case Done(s', d) => (s', Returned(d))
      case Failed(e) => (s, Thrown(e))
    else if !s.caps.load then
      (s, if Given(callback) then Deliver(callback, Some(NoLoad(s.kind)), None) else Thrown(NoLoad(s.kind)))
    else
      match backend.load(s)
      case Done(s', d) => (s', Deliver(callback, None, d))
      case Failed(e) => (s, Deliver(callback, Some(e), None))
  }

  /**
    `nconf.save(value, callback)` (lib/nconf.js:101-126): with no callback
    the value is taken as the callback; with still none, `saveSync` is used
    when the store has it. Saving leaves the store as it is.
   */
  function SaveFront(s: Store, backend: Backend, value: Arg, callback: Arg): (r: Completion)
    ensures !Given(callback) && !Given(value) && s.caps.saveSync ==>
      r == (match backend.saveSync(s)
            case Done(_, d) => Returned(d)
            case Failed(e) => Thrown(e))
    ensures !s.caps.save && !(!Given(callback) && !Given(value) && s.caps.saveSync) ==>
      var cb := if Given(callback) then callback else value;
      r == (if Given(cb) then Deliver(cb, Some(NoSave(s.kind)), None) else Thrown(NoSave(s.kind)))
    ensures callback.Fn? || (!Given(callback) && value.Fn?) ==> r.CalledBack?
  {
    var cb := if Given(callback) then callback else value;
    if !Given(callback) && !Given(cb) && s.caps.saveSync then
      match backend.saveSync(s)
      case Done(_, d) => Returned(d)
      case Failed(e) => Thrown(e)
    else if !s.caps.save then
      if Given(cb) then Deliver(cb, Some(NoSave(s.kind)), None) else Thrown(NoSave(s.kind))
    else
      match backend.save(s)
      case Done(_, d) => Deliver(cb, None, d)
      case Failed(e) => Deliver(cb, Some(e), None)
  }

  /** Through the front, a `get` right after a `set` of the same key returns the value set. */
  lemma FrontGetAfterSet(s: Store, key: string, v: Value)
    ensures Providers.Reply(Apply(Apply(s, SetAction(key, v)).0, GetAction(key)).1, false) == Returned(Some(v))
  {
    MemoryLaws.GetAfterSet(s.mem, key, v);
  }

  /**
    Through the front, a `get` right after a `clear` that returned true gives
    no value: undefined, or the TypeError of a walk that meets a truthy scalar.
   */
  lemma FrontGetAfterClear(s: Store, key: string)
    requires Apply(s, ClearAction(key)).1 == Normal(Some(Bool(true)))
    ensures var r := Providers.Reply(Apply(Apply(s, ClearAction(key)).0, GetAction(key)).1, false);
      r == Returned(None) || r == Thrown(TypeError)
  {
    MemoryLaws.ClearThenGet(s.mem, key);
  }

  class Nconf {
    /** `new nconf.stores.create(type, options)`. */
    const create: (string, map<string, Value>) -> Store
    /** The stores' own load and save I/O. */
    const backend: Backend
    /** `nconf.store`. */
    var store: Store

    /** Loading the module: `nconf.use('memory')` with no store yet (lib/nconf.js:157). */
    constructor (create: (string, map<string, Value>) -> Store, backend: Backend)
      ensures this.create == create && this.backend == backend
      ensures store == create("memory", map[])
    {
      this.create := create;
      this.backend := backend;
      store := create("memory", map[]);
    }

    /** `use(type, options)` (lib/nconf.js:29-33): a new store only when the lowercased type differs from the active store's. */
    method Use(t: string, options: map<string, Value>)
      modifies this
      ensures Lower(t) == old(store).kind ==> store == old(store)
      ensures Lower(t) != old(store).kind ==> store == create(t, options)
    {
      if Lower(t) != store.kind {
        store := create(t, options);
      }
    }

    /** `get(key, callback)` (lib/nconf.js:41-43): the active store's `get`; Memory stores ignore the callback. */
    method Get(key: string) returns (r: Completion)
      ensures r == Providers.Reply(Apply(store, GetAction(key)).1, false)
      ensures r.Returned? <==> !MemoryModel.Get(store.mem, key).TypeFault?
      ensures r.Returned? ==> r.value == Providers.AsValue(MemoryModel.Get(store.mem, key))
    {
      match MemoryModel.Get(store.mem, key)
      case TypeFault => r := Thrown(TypeError);
      case Defined(v) => r := Returned(Some(v));
      case Undefined => r := Returned(None);
    }

    /** `set(key, value, callback)` (lib/nconf.js:52-54). */
    method Set(key: string, value: Value) returns (r: Completion)
      modifies this
      ensures (store, r) == (Apply(old(store), SetAction(key, value)).0, Returned(Some(Bool(true))))
    {
      store := store.(mem := MemoryModel.Set(store.mem, key, value));
      r := Returned(Some(Bool(true)));
    }

    /** `clear(key, callback)` (lib/nconf.js:62-64): true when the key was reached, else undefined. */
    method Clear(key: string) returns (r: Completion)
      modifies this
      ensures store == Apply(old(store), ClearAction(key)).0
      ensures r == Providers.Reply(Apply(old(store), ClearAction(key)).1, false)
    {
      var c := MemoryModel.Clear(store.mem, key);
      store := store.(mem := c.0);
      r := Returned(if c.1 then Some(Bool(true)) else None);
    }

    /** `reset(callback)` (lib/nconf.js:133-135). */
    method Reset() returns (r: Completion)
      modifies this
      ensures store == old(store).(mem := MemoryModel.Reset()) && r == Returned(Some(Bool(true)))
    {
      store := store.(mem := MemoryModel.Reset());
      r := Returned(Some(Bool(true)));
    }

    /** `load(callback)`. */
    method Load(callback: Arg) returns (r: Completion)
      modifies this
      ensures (store, r) == LoadFront(old(store), backend, callback)
    {
      if !Given(callback) && store.caps.loadSync {
        match backend.loadSync(store)
        case Done(s', d) =>
          store := s';
          return Returned(d);
        case Failed(e) =>
          return Thrown(e);
      }
      if !store.caps.load {
        if Given(callback) {
          return Deliver(callback, Some(NoLoad(store.kind)), None);
        }
        return Thrown(NoLoad(store.kind));
      }
      match backend.load(store)
      case Done(s', d) =>
        store := s';
        r := Deliver(callback, None, d);
      case Failed(e) =>
        r := Deliver(callback, Some(e), None);
    }

    /** `save(value, callback)`. */
    method Save(value: Arg, callback: Arg) returns (r: Completion)
      ensures r == SaveFront(store, backend, value, callback)
    {
      var cb := callback;
      if !Given(cb) {
        cb := value;
        if !Given(cb) && store.caps.saveSync {
          match backend.saveSync(store)
          case Done(_, d) =>
            return Returned(d);
          case Failed(e) =>
            return Thrown(e);
        }
      }
      if !store.caps.save {
        if Given(cb) {
          return Deliver(cb, Some(NoSave(store.kind)), None);
        }
        return Thrown(NoSave(store.kind));
      }
      match backend.save(store)
      case Done(_, d) =>
        r := Deliver(cb, None, d);
      case Failed(e) =>
        r := Deliver(cb, Some(e), None);
    }
  }
}

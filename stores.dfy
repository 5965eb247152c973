/**
  A store as the provider sees it, and the vocabulary of outcomes the
  provider's operations share.

  The store types memory, literal, env, system, file, argv and watch all
  inherit `get`, `set`, `clear`, `merge` and `reset` from the Memory store,
  so a store here is its type, its own fields (what `use` compares options
  against), its Memory state, and which of `loadSync`, `load`, `saveSync`
  and `save` it has. What loading and saving do is backend I/O and is given
  as functions. The Redis store, whose methods take a continuation, is not
  one of these.
 */
module Stores {
  import opened Values
  import opened MemoryModel

  /** Which of the optional methods a store has. */
  datatype Caps = Caps(loadSync: bool, load: bool, saveSync: bool, save: bool)

  /** A store: `type`, its other own fields, its Memory state, its optional methods. */
  datatype Store = Store(kind: string, fields: map<string, Value>, mem: MemState, caps: Caps)

  /** The errors the core raises, each with the message the source builds for it. */
  datatype Error =
    | ReservedName(name: string)
    | UnknownType(type_: string)
    | MissingStore(name: string)
    | NoLoadSync(type_: string)
    | NoLoad(type_: string)
    | NoSaveSync(type_: string)
    | NoSave(type_: string)
    | TopLevelMerge
    | TypeError
    | Backend(message: string)

  /** The message of each error (provider.js:89, 127, 134, 159, 279, 299, 307, 382, 392; lib/nconf.js:83, 117). */
  function Message(e: Error): string
  {
    match e
    case ReservedName(n) => "Cannot use reserved name: " + n
    case UnknownType(t) => "Cannot add store with unknown type: " + t
    case MissingStore(n) => "Cannot remove store that does not exist: " + n
    case NoLoadSync(t) => "nconf store " + t + " has no loadSync() method"
    case NoLoad(t) => "nconf store " + t + " has no load() method"
    case NoSaveSync(t) => "nconf store " + t + " has no saveSync() method"
    case NoSave(t) => "nconf store " + t + " has no save() method"
    case TopLevelMerge => "Cannot merge non-Object into top-level."
    case TypeError => "TypeError"
    case Backend(m) => m
  }

  /** What running one store method did: returned a value (`None` is undefined) or threw. */
  datatype Outcome = Normal(value: Option<Value>) | Abrupt(error: Error)

  /**
    How a provider or front operation completed, seen by its caller: it
    returned (or, with a continuation, returned nothing yet called it), threw,
    or called the continuation with `(error, value)`.
   */
  datatype Completion = Returned(value: Option<Value>) | Thrown(thrown: Error) | CalledBack(failure: Option<Error>, result: Option<Value>)

  /** `onError(err, callback)` (provider.js:479-485): pass the error on when there is a continuation, else throw it. */
  function OnError(e: Error, hasCallback: bool): (r: Completion)
    ensures hasCallback <==> r.CalledBack?
    ensures r.CalledBack? ==> r.failure == Some(e) && r.result.None?
    ensures r.Thrown? ==> r.thrown == e
    ensures r.Returned? ==> false
  {
    if hasCallback then CalledBack(Some(e), None) else Thrown(e)
  }

  /** A call's argument as JavaScript sees it: absent, a function, or a value. */
  datatype Arg = Missing | Fn | Data(v: Value)

  /** `if (arg)`. */
  predicate Given(a: Arg)
  {
    a.Fn? || (a.Data? && Truthy(a.v))
  }

  /** Calling `cb(error, value)`: only a function can be called; anything else raises a TypeError. */
  function Deliver(cb: Arg, error: Option<Error>, value: Option<Value>): (r: Completion)
    ensures cb.Fn? ==> r == CalledBack(error, value)
    ensures !cb.Fn? ==> r == Thrown(TypeError)
  {
    if cb.Fn? then CalledBack(error, value) else Thrown(TypeError)
  }

  /** The store methods the provider fans out. */
  datatype Action =
    | GetAction(key: string)
    | SetAction(key: string, value: Value)
    | ClearAction(key: string)
    | MergeAction(key: string, value: Value)
    | ResetAction

  /** Running `store[action](args)` synchronously: the Memory methods on the store's state. */
  function Apply(s: Store, a: Action): (r: (Store, Outcome))
    ensures r.0.kind == s.kind && r.0.fields == s.fields && r.0.caps == s.caps
    ensures a.GetAction? ==> r.0 == s
    ensures a.SetAction? ==> r == (s.(mem := Set(s.mem, a.key, a.value)), Normal(Some(Bool(true))))
    ensures a.ResetAction? ==> r == (s.(mem := Reset()), Normal(Some(Bool(true))))
    ensures r.1.Abrupt? ==> r.1.error == TypeError && (a.GetAction? || a.MergeAction?)
  {
    match a
    case GetAction(k) =>
      (match Get(s.mem, k)
       case Undefined => (s, Normal(None))
       case Defined(v) => (s, Normal(Some(v)))
       case TypeFault => (s, Abrupt(TypeError)))
    case SetAction(k, v) => (s.(mem := Set(s.mem, k, v)), Normal(Some(Bool(true))))
    case ClearAction(k) =>
      var c := Clear(s.mem, k);
      (s.(mem := c.0), Normal(if c.1 then Some(Bool(true)) else None))
    case MergeAction(k, v) =>
      var c := Merge(s.mem, k, v);
      (s.(mem := c.0), if c.1 then Normal(Some(Bool(true))) else Abrupt(TypeError))
    case ResetAction => (s.(mem := Reset()), Normal(Some(Bool(true))))
  }

  /** What a backend's load or save did: the store afterwards and the data it produced, or the error it raised. */
  datatype Attempt = Done(store: Store, data: Option<Value>) | Failed(error: Error)

  /** The stores' own `loadSync`, `load`, `saveSync` and `save`, as functions of the store. */
  datatype Backend = Backend(
    loadSync: Store -> Attempt,
    load: Store -> Attempt,
    saveSync: Store -> Attempt,
    save: Store -> Attempt)

  /** ASCII `toLowerCase`. */
  function Lower(s: string): (r: string)
    ensures |r| == |s|
    ensures forall i :: 0 <= i < |s| ==> r[i] == (if 'A' <= s[i] <= 'Z' then (s[i] as int + 32) as char else s[i])
  {
    if |s| == 0 then ""
    else [if 'A' <= s[0] <= 'Z' then (s[0] as int + 32) as char else s[0]] + Lower(s[1..])
  }
}

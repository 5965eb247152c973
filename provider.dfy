/**
  The Provider of lib/nconf/provider.js: an ordered list of store names
  (`_stores`), the stores bound to those names (`this[name]`), the read-only
  sources, and the `overrides`/`argv`/`env` flags.

  The sequential semantics of every operation is given by a function over
  the names and the bindings (`Fanout`, `FirstDefined`, `NamedBatch`, ...),
  each written front to back in the order the source visits stores; the
  methods of the class run the source's loops and are proved to compute
  those functions. The set of store types `add` accepts, the reserved names,
  the store factory `create`, the stores' own load/save I/O and
  `common.merge` are parameters of a provider.
 */
module Providers {
  import opened Values
  import opened MemoryModel
  import opened Stores
  import MemoryLaws

  // ---------------------------------------------------------------- options

  /** `options[k]` when it is a string, else "" (absent, falsy and non-string values alike). */
  function Text(o: map<string, Value>, k: string): string
  {
    if k in o && o[k].Str? then o[k].s else ""
  }

  /** `a || b` on strings. */
  function Or(a: string, b: string): string
  {
    if a != "" then a else b
  }

  /** `options.type || name` (provider.js:93, 131). */
  function TypeOf(options: map<string, Value>, name: string): string
  {
    Or(Text(options, "type"), name)
  }

  /** `store[k]`: the `type` field or another own field; `None` is undefined. */
  function Field(s: Store, k: string): Option<Value>
  {
    if k == "type" then Some(Str(s.kind)) else if k in s.fields then Some(s.fields[k]) else None
  }

  /** `a === b`. An object or array is taken never to be the very object held in a store field. */
  predicate StrictEq(a: Value, b: Option<Value>)
  {
    b.Some? && !IsContainer(a) && a == b.value
  }

  /** `sameOptions(store)` (provider.js:95-99): every supplied option is `===` the store's field of that name. */
  predicate SameOptions(options: map<string, Value>, s: Store)
  {
    forall k | k in options :: StrictEq(options[k], Field(s, k))
  }

  lemma SameOptionsIsShallow(options: map<string, Value>, s: Store, k: string)
    requires k in options && IsContainer(options[k])
    ensures !SameOptions(options, s)
  {
  }

  // ---------------------------------------------------------------- the name list

  /** `names.indexOf(name)`. */
  function IndexOf(names: seq<string>, name: string): (r: int)
    ensures -1 <= r < |names|
    ensures r >= 0 ==> names[r] == name && forall j | 0 <= j < r :: names[j] != name
    ensures r == -1 <==> name !in names
  {
    if |names| == 0 then -1
    else if names[0] == name then 0
    else
      var r := IndexOf(names[1..], name);
      if r == -1 then -1 else r + 1
  }

  /** `names.splice(i, 1)`, where an index of -1 counts from the end, as `splice` does. */
  function Splice1(names: seq<string>, i: int): (r: seq<string>)
    requires -1 <= i < |names|
  {
    if i >= 0 then names[..i] + names[i + 1..]
    else if |names| == 0 then names
    else names[..|names| - 1]
  }

  /** Removing a listed name takes out its first occurrence and keeps the rest in order. */
  lemma RemoveFirstOccurrence(names: seq<string>, name: string)
    requires name in names
    ensures var i := IndexOf(names, name);
      Splice1(names, i) == names[..i] + names[i + 1..] &&
      name !in names[..i] &&
      multiset(Splice1(names, i)) == multiset(names) - multiset{name} &&
      |Splice1(names, i)| == |names| - 1
  {
    var i := IndexOf(names, name);
    var before, after := names[..i], names[i + 1..];
    assert names == before + [name] + after;
    assert multiset(names) == multiset(before) + multiset{name} + multiset(after);
    assert name !in before by {
      forall j | 0 <= j < |before|
        ensures before[j] != name
      {
        assert before[j] == names[j];
      }
    }
  }

  // ---------------------------------------------------------------- fan-out and lookup

  /** The value a read returns: `None` is undefined. */
  function AsValue(r: Read): Option<Value>
  {
    if r.Defined? then Some(r.value) else None
  }

  /**
    `_execute(action, …)` without a continuation (provider.js:442-447): the
    action on every listed store in order, each reply replacing `last`; an
    unbound name (`self[name]` undefined) or a store that throws stops it.
   */
  function Fanout(names: seq<string>, bound: map<string, Store>, a: Action, last: Option<Value>): (r: (map<string, Store>, Outcome))
    ensures r.0.Keys == bound.Keys
    decreases |names|
  {
    if |names| == 0 then (bound, Normal(last))
    else if names[0] !in bound then (bound, Abrupt(TypeError))
    else
      var step := Apply(bound[names[0]], a);
      var b := bound[names[0] := step.0];
      if step.1.Abrupt? then (b, step.1) else Fanout(names[1..], b, a, step.1.value)
  }

  /** How `_execute` completes: a throw passes through; a continuation is called with no arguments. */
  function Reply(o: Outcome, hasCallback: bool): (r: Completion)
    ensures o.Abrupt? ==> r == Thrown(o.error)
    ensures o.Normal? && hasCallback ==> r == CalledBack(None, None)
    ensures o.Normal? && !hasCallback ==> r == Returned(o.value)
  {
    match o
    case Abrupt(e) => Thrown(e)
    case Normal(v) => if hasCallback then CalledBack(None, None) else Returned(v)
  }

  /**
    `get(key, callback)` (provider.js:198-223): stores in order until one
    gives a value that is not undefined; an unbound name or a store whose
    `get` throws ends it with that error.
   */
  function FirstDefined(names: seq<string>, bound: map<string, Store>, key: string): Completion
    decreases |names|
  {
    if |names| == 0 then CalledBack(None, None)
    else if names[0] !in bound then Thrown(TypeError)
    else
      match Get(bound[names[0]].mem, key)
      case TypeFault => Thrown(TypeError)
      case Defined(v) => CalledBack(None, Some(v))
      case Undefined => FirstDefined(names[1..], bound, key)
  }

  /** The store bound to `n` has nothing at `key`. */
  predicate Miss(bound: map<string, Store>, n: string, key: string)
  {
    n in bound && Get(bound[n].mem, key).Undefined?
  }

  /** The first `i` listed stores have nothing at `key`. */
  predicate Misses(names: seq<string>, bound: map<string, Store>, key: string, i: int)
    requires 0 <= i <= |names|
  {
    forall j | 0 <= j < i :: Miss(bound, names[j], key)
  }

  /** What a store that does not miss contributes to the callback `get`. */
  function Hit(bound: map<string, Store>, n: string, key: string): Completion
  {
    if n !in bound then Thrown(TypeError)
    else match Get(bound[n].mem, key)
      case Defined(v) => CalledBack(None, Some(v))
      case _ => Thrown(TypeError)
  }

  /**
    The callback `get` stops at the first store that does not miss: it
    answers with that store's value, or the TypeError an unbound name or a
    faulting walk raises; when every store misses it answers undefined.
   */
  lemma {:induction false} FirstDefinedStopsAtFirstHit(names: seq<string>, bound: map<string, Store>, key: string)
    ensures exists i | 0 <= i <= |names| ::
      (Misses(names, bound, key, i) &&
       (i == |names| ==> FirstDefined(names, bound, key) == CalledBack(None, None)) &&
       (i < |names| ==> !Miss(bound, names[i], key) && FirstDefined(names, bound, key) == Hit(bound, names[i], key)))
    decreases |names|
  {
    if |names| == 0 {
      assert Misses(names, bound, key, 0);
    } else if !Miss(bound, names[0], key) {
      assert Misses(names, bound, key, 0);
    } else {
      FirstDefinedStopsAtFirstHit(names[1..], bound, key);
      var i :| 0 <= i <= |names[1..]| && Misses(names[1..], bound, key, i) &&
        (i == |names[1..]| ==> FirstDefined(names[1..], bound, key) == CalledBack(None, None)) &&
        (i < |names[1..]| ==> !Miss(bound, names[1..][i], key) && FirstDefined(names[1..], bound, key) == Hit(bound, names[1..][i], key));
      assert Misses(names, bound, key, i + 1) by {
        forall j | 0 <= j < i + 1
          ensures Miss(bound, names[j], key)
        {
          if j > 0 {
            assert names[j] == names[1..][j - 1];
          }
        }
      }
    }
  }

  /** Sync `get` changes no store, and throws exactly when some listed name is unbound or some store's walk faults. */
  lemma {:induction false} FanoutGetFaults(names: seq<string>, bound: map<string, Store>, key: string, last: Option<Value>)
    ensures Fanout(names, bound, GetAction(key), last).0 == bound
    ensures Fanout(names, bound, GetAction(key), last).1.Abrupt? <==>
      exists i | 0 <= i < |names| :: names[i] !in bound || Get(bound[names[i]].mem, key).TypeFault?
    decreases |names|
  {
    if |names| > 0 && names[0] in bound && !Get(bound[names[0]].mem, key).TypeFault? {
      var step := Apply(bound[names[0]], GetAction(key));
      assert bound[names[0] := step.0] == bound;
      FanoutGetFaults(names[1..], bound, key, step.1.value);
      if exists i | 0 <= i < |names| :: names[i] !in bound || Get(bound[names[i]].mem, key).TypeFault? {
        var i :| 0 <= i < |names| && (names[i] !in bound || Get(bound[names[i]].mem, key).TypeFault?);
        assert names[1..][i - 1] == names[i];
      }
      if exists i | 0 <= i < |names[1..]| :: names[1..][i] !in bound || Get(bound[names[1..][i]].mem, key).TypeFault? {
        var i :| 0 <= i < |names[1..]| && (names[1..][i] !in bound || Get(bound[names[1..][i]].mem, key).TypeFault?);
        assert names[i + 1] == names[1..][i];
      }
    }
  }

  /** When no store faults, sync `get` returns what the LAST listed store holds, even undefined. */
  lemma {:induction false} SyncGetIsLastStore(names: seq<string>, bound: map<string, Store>, key: string, last: Option<Value>)
    requires forall i | 0 <= i < |names| :: names[i] in bound && !Get(bound[names[i]].mem, key).TypeFault?
    ensures Fanout(names, bound, GetAction(key), last) ==
      (bound, Normal(if |names| == 0 then last else AsValue(Get(bound[names[|names| - 1]].mem, key))))
    decreases |names|
  {
    if |names| > 0 {
      var step := Apply(bound[names[0]], GetAction(key));
      assert bound[names[0] := step.0] == bound;
      SyncGetIsLastStore(names[1..], bound, key, step.1.value);
      if |names| > 1 {
        assert names[1..][|names| - 2] == names[|names| - 1];
      }
    }
  }

  /** No two listed names are the same. */
  predicate Distinct(names: seq<string>)
  {
    forall i, j | 0 <= i < j < |names| :: names[i] != names[j]
  }

  /** The bindings after applying `a` once to each listed store. */
  function UpdateAll(bound: map<string, Store>, names: seq<string>, a: Action): map<string, Store>
  {
    map n | n in bound :: if n in names then Apply(bound[n], a).0 else bound[n]
  }

  /** The tail of a distinct list is distinct and does not hold its head. */
  lemma DistinctTail(names: seq<string>)
    requires |names| > 0 && Distinct(names)
    ensures Distinct(names[1..]) && names[0] !in names[1..]
  {
    forall i, j | 0 <= i < j < |names[1..]|
      ensures names[1..][i] != names[1..][j]
    {
      assert names[1..][i] == names[i + 1] && names[1..][j] == names[j + 1];
    }
    forall i | 0 <= i < |names[1..]|
      ensures names[1..][i] != names[0]
    {
      assert names[1..][i] == names[i + 1];
    }
  }

  /** Updating the head first, then the tail, is updating the whole list. */
  lemma UpdateAllStep(bound: map<string, Store>, names: seq<string>, a: Action)
    requires |names| > 0 && names[0] in bound && names[0] !in names[1..]
    ensures UpdateAll(bound[names[0] := Apply(bound[names[0]], a).0], names[1..], a) == UpdateAll(bound, names, a)
  {
    var b := bound[names[0] := Apply(bound[names[0]], a).0];
    forall n | n in bound
      ensures UpdateAll(b, names[1..], a)[n] == UpdateAll(bound, names, a)[n]
    {
      if n != names[0] {
        assert b[n] == bound[n];
        assert n in names[1..] <==> n in names;
      }
    }
  }

  /**
    When the listed names are distinct and bound and no store throws, the
    fan-out applies the action exactly once to every listed store, leaves the
    others alone, and answers with the last store's reply.
   */
  lemma {:induction false} FanoutUpdatesEach(names: seq<string>, bound: map<string, Store>, a: Action, last: Option<Value>)
    requires Distinct(names)
    requires forall i | 0 <= i < |names| :: names[i] in bound && Apply(bound[names[i]], a).1.Normal?
    ensures Fanout(names, bound, a, last) ==
      (UpdateAll(bound, names, a), Normal(if |names| == 0 then last else Apply(bound[names[|names| - 1]], a).1.value))
    decreases |names|
  {
    if |names| == 0 {
      assert UpdateAll(bound, names, a) == bound;
    } else {
      var step := Apply(bound[names[0]], a);
      var b := bound[names[0] := step.0];
      DistinctTail(names);
      forall i | 0 <= i < |names[1..]|
        ensures names[1..][i] in b && Apply(b[names[1..][i]], a).1.Normal?
      {
        assert names[1..][i] == names[i + 1];
      }
      FanoutUpdatesEach(names[1..], b, a, step.1.value);
      UpdateAllStep(bound, names, a);
      if |names| > 1 {
        assert names[1..][|names| - 2] == names[|names| - 1];
      }
    }
  }

  /** The fan-out leaves a store whose name is not listed as it was. */
  lemma {:induction false} FanoutFrame(names: seq<string>, bound: map<string, Store>, a: Action, last: Option<Value>, n: string)
    requires n in bound && n !in names
    ensures Fanout(names, bound, a, last).0[n] == bound[n]
    decreases |names|
  {
    if |names| > 0 && names[0] in bound {
      var step := Apply(bound[names[0]], a);
      if step.1.Normal? {
        FanoutFrame(names[1..], bound[names[0] := step.0], a, step.1.value, n);
      }
    }
  }

  /**
    Sync `set` over bound names writes `value` into every listed store and
    returns true (or `last` when none is listed); a name listed twice is
    simply written twice.
   */
  lemma {:induction false} SyncSetWritesEveryStore(names: seq<string>, bound: map<string, Store>, key: string, value: Value, last: Option<Value>)
    requires forall i | 0 <= i < |names| :: names[i] in bound
    ensures Fanout(names, bound, SetAction(key, value), last).1 == Normal(if |names| == 0 then last else Some(Bool(true)))
    ensures forall n | n in names :: Get(Fanout(names, bound, SetAction(key, value), last).0[n].mem, key) == Defined(value)
    decreases |names|
  {
    if |names| > 0 {
      var a := SetAction(key, value);
      var b := bound[names[0] := Apply(bound[names[0]], a).0];
      forall i | 0 <= i < |names[1..]|
        ensures names[1..][i] in b
      {
        assert names[1..][i] == names[i + 1];
      }
      SyncSetWritesEveryStore(names[1..], b, key, value, Some(Bool(true)));
      forall n | n in names
        ensures Get(Fanout(names, bound, a, last).0[n].mem, key) == Defined(value)
      {
        if n !in names[1..] {
          assert n == names[0];
          FanoutFrame(names[1..], b, a, Some(Bool(true)), n);
          MemoryLaws.GetAfterSet(bound[n].mem, key, value);
        }
      }
    }
  }

  /** The two `get`s disagree: with `x` set in both stores, the callback form answers the first, the sync form the last. */
  lemma SyncAndCallbackGetDiffer()
    ensures var s1 := Store("memory", map[], MemState(map["x" := Num(1.0)], {}), Caps(false, false, false, false));
      var s2 := Store("memory", map[], MemState(map["x" := Num(2.0)], {}), Caps(false, false, false, false));
      var bound := map["a" := s1, "b" := s2];
      FirstDefined(["a", "b"], bound, "x") == CalledBack(None, Some(Num(1.0))) &&
      Fanout(["a", "b"], bound, GetAction("x"), None) == (bound, Normal(Some(Num(2.0))))
  {
    var s1 := Store("memory", map[], MemState(map["x" := Num(1.0)], {}), Caps(false, false, false, false));
    var s2 := Store("memory", map[], MemState(map["x" := Num(2.0)], {}), Caps(false, false, false, false));
    var bound := map["a" := s1, "b" := s2];
    assert Keys.Split("x") == ["x"] by {
      Keys.SplitSingle("x");
    }
    assert ["a", "b"][1..] == ["b"];
    SyncGetIsLastStore(["a", "b"], bound, "x", None);
  }

  // ---------------------------------------------------------------- top-level merge

  /**
    `merge(value)` with no key (provider.js:282): each property of `value`,
    in key order, merged on its own key into every store; a throw stops it.
   */
  function MergeEachTop(names: seq<string>, bound: map<string, Store>, props: map<string, Value>, todo: set<string>): (r: (map<string, Store>, Option<Error>))
    requires todo <= props.Keys
    ensures r.0.Keys == bound.Keys
    decreases |todo|
  {
    if todo == {} then (bound, None)
    else
      var q := Least(todo);
      var f := Fanout(names, bound, MergeAction(q, props[q]), None);
      if f.1.Abrupt? then (f.0, Some(f.1.error)) else MergeEachTop(names, f.0, props, todo - {q})
  }

  // ---------------------------------------------------------------- load and save

  datatype Io = Loading | Saving

  /** One store visited by `loadBatch`/`save`: its data, a throw, or an error passed to the continuation. */
  datatype Step = Visited(store: Store, data: Option<Value>) | Raised(error: Error) | Reported(error: Error)

  /**
    `loadStoreSync`/`loadStore` (provider.js:297-313) and
    `saveStoreSync`/`saveStore` (provider.js:378-398): the sync form needs
    the sync method; the callback form needs either and prefers the sync
    one. Saving leaves the store as it was.
   */
  function Visit(s: Store, backend: Backend, io: Io, sync: bool): (r: Step)
    ensures io == Saving && r.Visited? ==> r.store == s
    ensures sync ==> !r.Reported?
    ensures sync && io == Loading && !s.caps.loadSync ==> r == Raised(NoLoadSync(s.kind))
    ensures sync && io == Saving && !s.caps.saveSync ==> r == Raised(NoSaveSync(s.kind))
    ensures !sync && io == Loading && !s.caps.loadSync && !s.caps.load ==> r == Reported(NoLoad(s.kind))
    ensures !sync && io == Saving && !s.caps.saveSync && !s.caps.save ==> r == Reported(NoSave(s.kind))
  {
    var hasSync := if io == Loading then s.caps.loadSync else s.caps.saveSync;
    var hasAsync := if io == Loading then s.caps.load else s.caps.save;
    if sync && !hasSync then Raised(if io == Loading then NoLoadSync(s.kind) else NoSaveSync(s.kind))
    else if !sync && !hasSync && !hasAsync then Reported(if io == Loading then NoLoad(s.kind) else NoSave(s.kind))
    else if hasSync then
      match (if io == Loading then backend.loadSync(s) else backend.saveSync(s))
      case Done(s', d) => Visited(if io == Loading then s' else s, d)
      case Failed(e) => Raised(e)
    else
      match (if io == Loading then backend.load(s) else backend.save(s))
      case Done(s', d) => Visited(if io == Loading then s' else s, d)
      case Failed(e) => Reported(e)
  }

  /** A batch of visits: all the data in order, or the first throw, or the first error passed on. */
  datatype Batch = Collected(data: seq<Option<Value>>) | Raising(error: Error) | Reporting(error: Error)

  /** `loadBatch(self.sources, …)`: the sources visited in order until one fails. */
  function SourceBatch(ts: seq<Store>, backend: Backend, io: Io, sync: bool, acc: seq<Option<Value>>): (r: (seq<Store>, Batch))
    ensures |r.0| == |ts|
    ensures r.1.Collected? ==> |r.1.data| == |acc| + |ts|
    ensures sync ==> !r.1.Reporting?
    decreases |ts|
  {
    if |ts| == 0 then ([], Collected(acc))
    else
      match Visit(ts[0], backend, io, sync)
      case Visited(s', d) =>
        var rest := SourceBatch(ts[1..], backend, io, sync, acc + [d]);
        ([s'] + rest.0, rest.1)
      case Raised(e) => (ts, Raising(e))
      case Reported(e) => (ts, Reporting(e))
  }

  /** `loadBatch(stores, …)` and the `save` map: the listed stores visited in order until one fails. */
  function NamedBatch(names: seq<string>, bound: map<string, Store>, backend: Backend, io: Io, sync: bool, acc: seq<Option<Value>>): (r: (map<string, Store>, Batch))
    ensures r.0.Keys == bound.Keys
    ensures r.1.Collected? ==> |r.1.data| == |acc| + |names|
    ensures sync ==> !r.1.Reporting?
    decreases |names|
  {
    if |names| == 0 then (bound, Collected(acc))
    else if names[0] !in bound then (bound, Raising(TypeError))
    else
      match Visit(bound[names[0]], backend, io, sync)
      case Visited(s', d) => NamedBatch(names[1..], bound[names[0] := s'], backend, io, sync, acc + [d])
      case Raised(e) => (bound, Raising(e))
      case Reported(e) => (bound, Reporting(e))
  }

  /** Saving changes no store. */
  lemma {:induction false} SaveKeepsStores(names: seq<string>, bound: map<string, Store>, backend: Backend, sync: bool, acc: seq<Option<Value>>)
    ensures NamedBatch(names, bound, backend, Saving, sync, acc).0 == bound
    decreases |names|
  {
    if |names| > 0 && names[0] in bound {
      var v := Visit(bound[names[0]], backend, Saving, sync);
      if v.Visited? {
        assert bound[names[0] := v.store] == bound;
        SaveKeepsStores(names[1..], bound, backend, sync, acc + [v.data]);
      }
    }
  }

  /** A sync save that collects every store's data has visited only bound stores that have `saveSync`. */
  lemma {:induction false} SyncSaveNeedsSaveSync(names: seq<string>, bound: map<string, Store>, backend: Backend, acc: seq<Option<Value>>)
    requires NamedBatch(names, bound, backend, Saving, true, acc).1.Collected?
    ensures forall i | 0 <= i < |names| :: names[i] in bound && bound[names[i]].caps.saveSync
    decreases |names|
  {
    if |names| > 0 {
      var v := Visit(bound[names[0]], backend, Saving, true);
      assert bound[names[0] := v.store] == bound;
      SyncSaveNeedsSaveSync(names[1..], bound, backend, acc + [v.data]);
      forall i | 0 <= i < |names|
        ensures names[i] in bound && bound[names[i]].caps.saveSync
      {
        if i > 0 {
          assert names[i] == names[1..][i - 1];
        }
      }
    }
  }

  /** A store's own `loadSync` does not add or drop its methods. */
  ghost predicate KeepsCaps(backend: Backend)
  {
    (forall s | backend.loadSync(s).Done? :: backend.loadSync(s).store.caps == s.caps) &&
    (forall s | backend.load(s).Done? :: backend.load(s).store.caps == s.caps)
  }

  /** A sync load that collects every store's data has visited only bound stores that have `loadSync`. */
  lemma {:induction false} SyncLoadNeedsLoadSync(names: seq<string>, bound: map<string, Store>, backend: Backend, acc: seq<Option<Value>>)
    requires KeepsCaps(backend)
    requires NamedBatch(names, bound, backend, Loading, true, acc).1.Collected?
    ensures forall i | 0 <= i < |names| :: names[i] in bound
    ensures forall n | n in names :: bound[n].caps.loadSync
    decreases |names|
  {
    if |names| > 0 {
      var v := Visit(bound[names[0]], backend, Loading, true);
      var b := bound[names[0] := v.store];
      SyncLoadNeedsLoadSync(names[1..], b, backend, acc + [v.data]);
      forall i | 0 <= i < |names|
        ensures names[i] in bound && bound[names[i]].caps.loadSync
      {
        if i > 0 {
          assert names[i] == names[1..][i - 1];
          assert b[names[i]].caps == bound[names[i]].caps;
        }
      }
    }
  }

  /** A callback load that collects every store's data has visited only bound stores that have `load` or `loadSync`. */
  lemma {:induction false} CallbackLoadNeedsSomeLoad(names: seq<string>, bound: map<string, Store>, backend: Backend, acc: seq<Option<Value>>)
    requires KeepsCaps(backend)
    requires NamedBatch(names, bound, backend, Loading, false, acc).1.Collected?
    ensures forall i | 0 <= i < |names| :: names[i] in bound
    ensures forall n | n in names :: bound[n].caps.loadSync || bound[n].caps.load
    decreases |names|
  {
    if |names| > 0 {
      var v := Visit(bound[names[0]], backend, Loading, false);
      var b := bound[names[0] := v.store];
      CallbackLoadNeedsSomeLoad(names[1..], b, backend, acc + [v.data]);
      forall i | 0 <= i < |names|
        ensures names[i] in bound && (bound[names[i]].caps.loadSync || bound[names[i]].caps.load)
      {
        if i > 0 {
          assert names[i] == names[1..][i - 1];
          assert b[names[i]].caps == bound[names[i]].caps;
        }
      }
    }
  }

  /**
    A sync load of the sources that collects every source's data has found
    `loadSync` on every one of them: `loadStoreSync` throws on the first that
    lacks it. Each source is visited once, so what its own load does to the
    methods of a source does not matter.
   */
  lemma {:induction false} SyncSourcesNeedLoadSync(ts: seq<Store>, backend: Backend, acc: seq<Option<Value>>)
    ensures SourceBatch(ts, backend, Loading, true, acc).1.Collected? ==> forall i | 0 <= i < |ts| :: ts[i].caps.loadSync
    decreases |ts|
  {
    if |ts| > 0 && SourceBatch(ts, backend, Loading, true, acc).1.Collected? {
      var v := Visit(ts[0], backend, Loading, true);
      SyncSourcesNeedLoadSync(ts[1..], backend, acc + [v.data]);
      forall i | 0 < i < |ts|
        ensures ts[i].caps.loadSync
      {
        assert ts[i] == ts[1..][i - 1];
      }
    }
  }

  /** How `loadBatch`'s result reaches the caller (provider.js:316-322). */
  function Finish(b: Batch, hasCallback: bool, combine: seq<Option<Value>> -> Value): (r: Completion)
    ensures b.Raising? ==> r == Thrown(b.error)
    ensures b.Reporting? ==> r == CalledBack(Some(b.error), None)
    ensures b.Collected? ==> r == (if hasCallback then CalledBack(None, Some(combine(b.data))) else Returned(Some(combine(b.data))))
  {
    match b
    case Raising(e) => Thrown(e)
    case Reporting(e) => CalledBack(Some(e), None)
    case Collected(ds) => if hasCallback then CalledBack(None, Some(combine(ds))) else Returned(Some(combine(ds)))
  }

  /**
    `mergeSources(data)` (provider.js:325-335): each property of an object
    `data` merged on its own key into the store bound to "system".
   */
  function MergeIntoSystem(bound: map<string, Store>, props: map<string, Value>, todo: set<string>): (r: (map<string, Store>, Option<Error>))
    requires todo <= props.Keys
    ensures r.0.Keys == bound.Keys
    ensures todo != {} && "system" !in bound ==> r == (bound, Some(TypeError))
    ensures forall n | n in bound && n != "system" :: r.0[n] == bound[n]
    ensures forall n | n in bound :: r.0[n].caps == bound[n].caps
    decreases |todo|
  {
    if todo == {} then (bound, None)
    else if "system" !in bound then (bound, Some(TypeError))
    else
      var q := Least(todo);
      var sys := bound["system"];
      var c := Merge(sys.mem, q, props[q]);
      var b := bound["system" := sys.(mem := c.0)];
      if !c.1 then (b, Some(TypeError)) else MergeIntoSystem(b, props, todo - {q})
  }

  /** Data that `mergeSources` merges: a truthy object. */
  function Mergeable(data: Value): map<string, Value>
  {
    if Truthy(data) && IsObjectType(data) then Props(data) else map[]
  }

  // ---------------------------------------------------------------- flags

  datatype Flag = Overrides | Argv | Env

  /** The provider's `_overrides`, `_argv` and `_env`. */
  datatype Flags = Flags(overrides: Value, argv: Value, env: Value)

  function FlagName(f: Flag): string
  {
    match f
    case Overrides => "overrides"
    case Argv => "argv"
    case Env => "env"
  }

  /** `this['_' + prop] = value`. */
  function WithFlag(fl: Flags, f: Flag, v: Value): (r: Flags)
  {
    match f
    case Overrides => fl.(overrides := v)
    case Argv => fl.(argv := v)
    case Env => fl.(env := v)
  }

  /** The getters as intended: each reads its own field. */
  function ReadFlag(fl: Flags, f: Flag): (r: Value)
    ensures f == Overrides ==> r == fl.overrides
    ensures f == Argv ==> r == fl.argv
    ensures f == Env ==> r == fl.env
  {
    match f
    case Overrides => fl.overrides
    case Argv => fl.argv
    case Env => fl.env
  }

  /** The getters as written (provider.js:456, 465, 474): the `overrides` getter returns `_argv`. */
  function ReadFlagAsWritten(fl: Flags, f: Flag): (r: Value)
    ensures f != Overrides ==> r == ReadFlag(fl, f)
  {
    if f == Overrides then fl.argv else ReadFlag(fl, f)
  }

  /** Reading a flag back gives what was written to it, and the other flags are untouched. */
  lemma ReadFlagAfterWrite(fl: Flags, f: Flag, g: Flag, v: Value)
    ensures ReadFlag(WithFlag(fl, f, v), g) == (if f == g then v else ReadFlag(fl, g))
  {
  }

  /** As written, after `overrides = true` on a default provider the `overrides` getter answers false. */
  lemma OverridesGetterReadsArgv()
    ensures var fl := WithFlag(Flags(Null, Bool(false), Bool(false)), Overrides, Bool(true));
      ReadFlagAsWritten(fl, Overrides) == Bool(false) && ReadFlag(fl, Overrides) == Bool(true)
  {
  }

  // ---------------------------------------------------------------- the provider

  /** Every name a store is bound to is in the list `_stores`. */
  predicate Listed(names: seq<string>, bound: map<string, Store>)
  {
    forall n | n in bound :: n in names
  }

  /** Unbinding a name and splicing its first occurrence out keeps every other bound name listed. */
  lemma RemoveKeepsListed(names: seq<string>, bound: map<string, Store>, name: string)
    requires Listed(names, bound) && name in bound
    ensures Listed(Splice1(names, IndexOf(names, name)), bound - {name})
  {
    var i := IndexOf(names, name);
    var after := Splice1(names, i);
    RemoveFirstOccurrence(names, name);
    forall n | n in bound - {name}
      ensures n in after
    {
      var k :| 0 <= k < |names| && names[k] == n;
      if k < i {
        assert after[k] == n;
      } else {
        assert k != i;
        assert after[k - 1] == n;
      }
    }
  }

  class Provider {
    /** The store types `add` accepts (the capitalized type among the store modules). */
    const known: set<string>
    /** `_reserved`: the keys of the provider's prototype. */
    const reserved: set<string>
    /** `this.create(type, options)`: a new store of that type. */
    const create: (string, map<string, Value>) -> Store
    /** The stores' own load and save I/O. */
    const backend: Backend
    /** `common.merge` of the per-store results. */
    const combine: seq<Option<Value>> -> Value

    /** `_stores`. */
    var names: seq<string>
    /** `this[name]` for every name a store is bound to. */
    var bound: map<string, Store>
    /** `sources`. */
    var sources: seq<Store>
    var flags: Flags

    /** Every bound name is listed. */
    ghost predicate Valid()
      reads this
    {
      Listed(names, bound)
    }

    /**
      `new Provider(options)` up to the first store (provider.js:27-33): the
      flags from the options, no stores, no sources. `Init` does the rest.
     */
    constructor (known: set<string>, reserved: set<string>, create: (string, map<string, Value>) -> Store,
                 backend: Backend, combine: seq<Option<Value>> -> Value, options: map<string, Value>)
      ensures this.known == known && this.reserved == reserved && this.create == create
      ensures this.backend == backend && this.combine == combine
      ensures names == [] && bound == map[] && sources == []
      ensures flags == Flags(
        if "overrides" in options && Truthy(options["overrides"]) then options["overrides"] else Null,
        if "argv" in options && Truthy(options["argv"]) then options["argv"] else Bool(false),
        if "env" in options && Truthy(options["env"]) then options["env"] else Bool(false))
      ensures Valid()
    {
      this.known := known;
      this.reserved := reserved;
      this.create := create;
      this.backend := backend;
      this.combine := combine;
      names := [];
      bound := map[];
      sources := [];
      flags := Flags(
        if "overrides" in options && Truthy(options["overrides"]) then options["overrides"] else Null,
        if "argv" in options && Truthy(options["argv"]) then options["argv"] else Bool(false),
        if "env" in options && Truthy(options["env"]) then options["env"] else Bool(false));
    }

    /** A freshly created store after the eager `loadSync` of `add` (provider.js:140-142), with the error it threw. */
    function Added(s: Store): (r: (Store, Option<Error>))
      ensures !s.caps.loadSync ==> r == (s, None)
      ensures s.caps.loadSync && backend.loadSync(s).Done? ==> r == (backend.loadSync(s).store, None)
      ensures s.caps.loadSync && backend.loadSync(s).Failed? ==> r == (s, Some(backend.loadSync(s).error))
    {
      if !s.caps.loadSync then (s, None)
      else match backend.loadSync(s)
        case Done(s', _) => (s', None)
        case Failed(e) => (s, Some(e))
    }

    /** `add(name, options)` on the given names and bindings (provider.js:125-145). */
    function AddEffect(names: seq<string>, bound: map<string, Store>, name: string, options: map<string, Value>): (r: (seq<string>, map<string, Store>, Option<Error>))
      ensures name in reserved ==> r == (names, bound, Some(ReservedName(name)))
      ensures name !in reserved && TypeOf(options, name) !in known ==> r == (names, bound, Some(UnknownType(TypeOf(options, name))))
      ensures name !in reserved && TypeOf(options, name) in known ==>
        r.0 == names + [name] && r.1.Keys == bound.Keys + {name} &&
        (forall m | m in bound && m != name :: r.1[m] == bound[m]) &&
        (r.1[name], r.2) == Added(create(TypeOf(options, name), options))
    {
      if name in reserved then (names, bound, Some(ReservedName(name)))
      else
        var t := TypeOf(options, name);
        if t !in known then (names, bound, Some(UnknownType(t)))
        else
          var s := create(t, options);
          var l := Added(s);
          (names + [name], bound[name := l.0], l.1)
    }

    /** `add(name, options)`: rejects a reserved name or an unknown type, else binds and lists the new store. */
    method Add(name: string, options: map<string, Value>) returns (err: Option<Error>)
      modifies this
      ensures (names, bound, err) == AddEffect(old(names), old(bound), name, options)
      ensures sources == old(sources) && flags == old(flags)
      ensures old(Valid()) ==> Valid()
    {
      if name in reserved {
        return Some(ReservedName(name));
      }
      var t := TypeOf(options, name);
      if t !in known {
        return Some(UnknownType(t));
      }
      var s := create(t, options);
      bound := bound[name := s];
      names := names + [name];
      err := None;
      if s.caps.loadSync {
        match backend.loadSync(s)
        case Done(s', _) =>
          bound := bound[name := s'];
        case Failed(e) =>
          err := Some(e);
      }
      assert (bound[name], err) == Added(s);
      assert bound == old(bound)[name := Added(s).0];
    }

    /** `remove(name)` (provider.js:154-165): unbinds it and splices its first occurrence out of the list. */
    method Remove(name: string) returns (err: Option<Error>)
      modifies this
      ensures name in reserved ==> err == Some(ReservedName(name)) && names == old(names) && bound == old(bound)
      ensures name !in reserved && name !in old(bound) ==> err == Some(MissingStore(name)) && names == old(names) && bound == old(bound)
      ensures name !in reserved && name in old(bound) ==>
        err.None? && bound == old(bound) - {name} && names == Splice1(old(names), IndexOf(old(names), name))
      ensures sources == old(sources) && flags == old(flags)
      ensures old(Valid()) ==> Valid()
    {
      if name in reserved {
        return Some(ReservedName(name));
      }
      if name !in bound {
        return Some(MissingStore(name));
      }
      bound := bound - {name};
      names := Splice1(names, IndexOf(names, name));
      err := None;
      if old(Valid()) {
        RemoveKeepsListed(old(names), old(bound), name);
      }
    }

    /**
      `use(name, options)` (provider.js:84-113) on the given names and
      bindings: "system" is left alone; an unbound name is added; a bound one
      is removed and added again, so listed last, only when some option
      differs from the store's field.
     */
    function UseEffect(names: seq<string>, bound: map<string, Store>, name: string, options: map<string, Value>): (r: (seq<string>, map<string, Store>, Option<Error>))
      ensures name == "system" ==> r == (names, bound, None)
      ensures name != "system" && name in reserved ==> r == (names, bound, Some(ReservedName(name)))
      ensures name != "system" && name !in reserved && name in bound && SameOptions(options, bound[name]) ==>
        r == (names, bound, None)
      ensures name != "system" && name !in reserved && name in bound && !SameOptions(options, bound[name]) ==>
        r == AddEffect(Splice1(names, IndexOf(names, name)), bound - {name}, name, options)
      ensures name != "system" && name !in reserved && name !in bound ==> r == AddEffect(names, bound, name, options)
    {
      if name == "system" then (names, bound, None)
      else if name in reserved then (names, bound, Some(ReservedName(name)))
      else if name !in bound then AddEffect(names, bound, name, options)
      else if SameOptions(options, bound[name]) then (names, bound, None)
      else AddEffect(Splice1(names, IndexOf(names, name)), bound - {name}, name, options)
    }

    method Use(name: string, options: map<string, Value>) returns (err: Option<Error>)
      modifies this
      ensures (names, bound, err) == UseEffect(old(names), old(bound), name, options)
      ensures sources == old(sources) && flags == old(flags)
      ensures old(Valid()) ==> Valid()
    {
      if name == "system" {
        return None;
      }
      if name in reserved {
        return Some(ReservedName(name));
      }
      var update := name in bound && !SameOptions(options, bound[name]);
      if name !in bound || update {
        if update {
          err := Remove(name);
        }
        err := Add(name, options);
      } else {
        err := None;
      }
    }

    /**
      `use` again with options that a store already carries, every one a
      scalar equal to the store's field of that name, keeps the store, its
      place in the list and every other binding.
     */
    lemma UseWithOwnOptionsKeepsStore(names: seq<string>, bound: map<string, Store>, name: string, options: map<string, Value>)
      requires name in bound
      requires forall k | k in options :: !IsContainer(options[k]) && Field(bound[name], k) == Some(options[k])
      ensures UseEffect(names, bound, name, options).0 == names
      ensures UseEffect(names, bound, name, options).1 == bound
    {
      assert SameOptions(options, bound[name]);
    }

    /**
      `use` again with an option that differs from the store's field of that
      name (a different `file`, say) replaces the store with a new one created
      from the new options, listed last, and leaves every other binding alone.
     */
    lemma UseWithChangedOptionReplaces(names: seq<string>, bound: map<string, Store>, name: string, options: map<string, Value>, k: string)
      requires Listed(names, bound) && name in bound && name != "system" && name !in reserved
      requires TypeOf(options, name) in known
      requires k in options && Field(bound[name], k) != Some(options[k])
      ensures var i := IndexOf(names, name);
        var r := UseEffect(names, bound, name, options);
        r.0 == names[..i] + names[i + 1..] + [name] &&
        (r.1[name], r.2) == Added(create(TypeOf(options, name), options)) &&
        r.1.Keys == bound.Keys &&
        forall n | n in bound && n != name :: r.1[n] == bound[n]
    {
      assert !StrictEq(options[k], Field(bound[name], k));
      UseMovesReplacedStoreLast(names, bound, name, options);
    }

    /** A store replaced by `use` is listed last, after the others in their old order. */
    lemma UseMovesReplacedStoreLast(names: seq<string>, bound: map<string, Store>, name: string, options: map<string, Value>)
      requires Listed(names, bound) && name in bound && name !in reserved && TypeOf(options, name) in known
      ensures var i := IndexOf(names, name);
        AddEffect(Splice1(names, i), bound - {name}, name, options).0 == names[..i] + names[i + 1..] + [name]
    {
      RemoveFirstOccurrence(names, name);
    }

    /**
      `new Provider(options)` from line 40 on: adds "system" with the whole
      options, then the configured store or stores, then creates the sources.
     */
    method Init(options: map<string, Value>) returns (err: Option<Error>)
      modifies this
      ensures AddEffect(old(names), old(bound), "system", options).2.Some? ==>
        err == AddEffect(old(names), old(bound), "system", options).2 && names == AddEffect(old(names), old(bound), "system", options).0
      ensures "system" !in reserved && TypeOf(options, "system") in known ==>
        |names| > |old(names)| && names[..|old(names)| + 1] == old(names) + ["system"]
      ensures flags == old(flags)
      ensures old(Valid()) ==> Valid()
    {
      err := Add("system", options);
      if err.Some? {
        return;
      }
      ghost var afterSystem := names;
      err := AddConfigured(options);
      assert names[..|afterSystem|] == afterSystem;
      if err.Some? {
        return;
      }
      err := AddSources(options);
    }

    /**
      The `options.stores` loop (provider.js:52-56) over the entries in `todo`:
      each entry is added under `store.name || name || store.type`, and the
      first throw ends the loop. Reading `store.name` on a null entry is a
      TypeError.
     */
    function AddEach(names: seq<string>, bound: map<string, Store>, all: map<string, Value>, todo: set<string>): (r: (seq<string>, map<string, Store>, Option<Error>))
      requires todo <= all.Keys
      ensures |r.0| >= |names| && r.0[..|names|] == names
      ensures (exists k | k in todo :: all[k] == Null) ==> r.2.Some?
      ensures r.2.None? ==> |r.0| == |names| + |todo|
      ensures Listed(names, bound) ==> Listed(r.0, r.1)
      decreases |todo|
    {
      if todo == {} then (names, bound, None)
      else
        var k := Least(todo);
        if all[k] == Null then (names, bound, Some(TypeError))
        else
          var so := Props(all[k]);
          var step := AddEffect(names, bound, Or(Text(so, "name"), Or(k, Text(so, "type"))), so);
          if step.2.Some? then step
          else
            var r := AddEach(step.0, step.1, all, todo - {k});
            assert r.0[..|names|] == r.0[..|step.0|][..|names|];
            r
    }

    /** The stores `options.type`, `options.store` or `options.stores` name (provider.js:46-57). */
    method AddConfigured(options: map<string, Value>) returns (err: Option<Error>)
      modifies this
      ensures |names| >= |old(names)| && names[..|old(names)|] == old(names)
      ensures sources == old(sources) && flags == old(flags)
      ensures Text(options, "type") != "" ==> (names, bound, err) == AddEffect(old(names), old(bound), Text(options, "type"), options)
      ensures Text(options, "type") == "" && "store" in options && Truthy(options["store"]) ==>
        var so := Props(options["store"]);
        (names, bound, err) == AddEffect(old(names), old(bound), Or(Text(so, "name"), Text(so, "type")), so)
      ensures Text(options, "type") == "" && !("store" in options && Truthy(options["store"])) && "stores" in options && Truthy(options["stores"]) ==>
        (names, bound, err) == AddEach(old(names), old(bound), Props(options["stores"]), Props(options["stores"]).Keys)
      ensures Text(options, "type") == "" && !("store" in options && Truthy(options["store"])) && !("stores" in options && Truthy(options["stores"])) ==>
        names == old(names) && bound == old(bound) && err.None?
      ensures old(Valid()) ==> Valid()
    {
      err := None;
      if Text(options, "type") != "" {
        err := Add(Text(options, "type"), options);
      } else if "store" in options && Truthy(options["store"]) {
        var so := Props(options["store"]);
        err := Add(Or(Text(so, "name"), Text(so, "type")), so);
      } else if "stores" in options && Truthy(options["stores"]) {
        var all := Props(options["stores"]);
        var todo := all.Keys;
        while todo != {}
          invariant todo <= all.Keys
          invariant AddEach(names, bound, all, todo) == AddEach(old(names), old(bound), all, all.Keys)
          invariant err.None?
          invariant sources == old(sources) && flags == old(flags)
          invariant old(Valid()) ==> Valid()
          decreases |todo|
        {
          var k := Least(todo);
          if all[k] == Null {
            return Some(TypeError);
          }
          var so := Props(all[k]);
          err := Add(Or(Text(so, "name"), Or(k, Text(so, "type"))), so);
          if err.Some? {
            return;
          }
          todo := todo - {k};
        }
      }
    }

    /** `this.create(type, source)` for a source: `new stores[capitalize(type.toLowerCase())]`, a TypeError when no such store. */
    function CreateSource(t: string, o: map<string, Value>): (r: Option<Store>)
      ensures r.Some? <==> Lower(t) in known
    {
      if Lower(t) in known then Some(create(t, o)) else None
    }

    /** Entry `k` of `options.sources` is not null and names a known type. */
    predicate SourceEntryOk(all: map<string, Value>, k: string)
      requires k in all
    {
      all[k] != Null && CreateSource(Or(Text(Props(all[k]), "type"), Or(Text(Props(all[k]), "name"), k)), Props(all[k])).Some?
    }

    /**
      The `options.sources` loop (provider.js:65-69) over the entries in `todo`:
      each entry is created from `source.type || source.name || name` and
      pushed, and the first throw ends the loop. Reading `source.type` on a
      null entry is a TypeError.
     */
    function SourcesEach(sources: seq<Store>, all: map<string, Value>, todo: set<string>): (r: (seq<Store>, Option<Error>))
      requires todo <= all.Keys
      ensures |r.0| >= |sources| && r.0[..|sources|] == sources
      ensures r.1.Some? ==> r.1 == Some(TypeError)
      ensures (exists k | k in todo :: all[k] == Null) ==> r.1.Some?
      ensures r.1.None? <==> forall k | k in todo :: SourceEntryOk(all, k)
      ensures r.1.None? ==> |r.0| == |sources| + |todo|
      decreases |todo|
    {
      if todo == {} then (sources, None)
      else
        var k := Least(todo);
        if all[k] == Null then (sources, Some(TypeError))
        else
          var so := Props(all[k]);
          var c := CreateSource(Or(Text(so, "type"), Or(Text(so, "name"), k)), so);
          if c.None? then (sources, Some(TypeError))
          else
            var r := SourcesEach(sources + [c.value], all, todo - {k});
            assert r.0[..|sources|] == r.0[..|sources| + 1][..|sources|];
            r
    }

    /** The sources `options.source` or `options.sources` name (provider.js:62-70); never listed among the stores. */
    method AddSources(options: map<string, Value>) returns (err: Option<Error>)
      modifies this
      ensures names == old(names) && bound == old(bound) && flags == old(flags)
      ensures |sources| >= |old(sources)| && sources[..|old(sources)|] == old(sources)
      ensures "source" in options && Truthy(options["source"]) ==>
        var so := Props(options["source"]);
        var c := CreateSource(Or(Text(so, "type"), Text(so, "name")), so);
        if c.Some? then err.None? && sources == old(sources) + [c.value] else err == Some(TypeError) && sources == old(sources)
      ensures !("source" in options && Truthy(options["source"])) && "sources" in options && Truthy(options["sources"]) ==>
        (sources, err) == SourcesEach(old(sources), Props(options["sources"]), Props(options["sources"]).Keys)
      ensures !("source" in options && Truthy(options["source"])) && !("sources" in options && Truthy(options["sources"])) ==>
        sources == old(sources) && err.None?
      ensures old(Valid()) ==> Valid()
    {
      err := None;
      if "source" in options && Truthy(options["source"]) {
        var so := Props(options["source"]);
        var c := CreateSource(Or(Text(so, "type"), Text(so, "name")), so);
        if c.None? {
          return Some(TypeError);
        }
        sources := sources + [c.value];
      } else if "sources" in options && Truthy(options["sources"]) {
        var all := Props(options["sources"]);
        var todo := all.Keys;
        while todo != {}
          invariant todo <= all.Keys
          invariant SourcesEach(sources, all, todo) == SourcesEach(old(sources), all, all.Keys)
          invariant names == old(names) && bound == old(bound) && flags == old(flags)
          decreases |todo|
        {
          var k := Least(todo);
          if all[k] == Null {
            return Some(TypeError);
          }
          var so := Props(all[k]);
          var c := CreateSource(Or(Text(so, "type"), Or(Text(so, "name"), k)), so);
          if c.None? {
            return Some(TypeError);
          }
          sources := sources + [c.value];
          todo := todo - {k};
        }
      }
    }

    /** `_execute(action, …)` (provider.js:422-448): the action on every listed store in order. */
    method Execute(a: Action, hasCallback: bool) returns (r: Completion)
      modifies this
      ensures names == old(names) && sources == old(sources) && flags == old(flags)
      ensures bound == Fanout(old(names), old(bound), a, None).0
      ensures r == Reply(Fanout(old(names), old(bound), a, None).1, hasCallback)
      ensures old(Valid()) ==> Valid()
    {
      var response: Option<Value> := None;
      var i := 0;
      while i < |names|
        invariant 0 <= i <= |names|
        invariant names == old(names) && sources == old(sources) && flags == old(flags)
        invariant bound.Keys == old(bound).Keys
        invariant Fanout(names[i..], bound, a, response) == Fanout(old(names), old(bound), a, None)
      {
        var n := names[i];
        if n !in bound {
          return Thrown(TypeError);
        }
        var step := Apply(bound[n], a);
        bound := bound[n := step.0];
        if step.1.Abrupt? {
          return Thrown(step.1.error);
        }
        response := step.1.value;
        assert names[i..][1..] == names[i + 1..];
        i := i + 1;
      }
      r := if hasCallback then CalledBack(None, None) else Returned(response);
    }

    /** The whilst loop of the callback `get` (provider.js:198-223); it changes nothing. */
    method GetAsync(key: string) returns (r: Completion)
      ensures r == FirstDefined(names, bound, key)
    {
      var current := 0;
      var response: Option<Value> := None;
      while response.None? && current < |names|
        invariant 0 <= current <= |names|
        invariant response.None? ==> FirstDefined(names[current..], bound, key) == FirstDefined(names, bound, key)
        invariant response.Some? ==> FirstDefined(names, bound, key) == CalledBack(None, response)
        decreases |names| - current
      {
        var n := names[current];
        if n !in bound {
          return Thrown(TypeError);
        }
        assert names[current..][1..] == names[current + 1..];
        current := current + 1;
        match MemoryModel.Get(bound[n].mem, key)
        case TypeFault =>
          return Thrown(TypeError);
        case Defined(v) =>
          response := Some(v);
        case Undefined =>
      }
      r := CalledBack(None, response);
    }

    /** `get(key, callback)`: without a continuation through `_execute`, with one the first-defined walk. */
    method Get(key: string, hasCallback: bool) returns (r: Completion)
      modifies this
      ensures !hasCallback ==> r == Reply(Fanout(old(names), old(bound), GetAction(key), None).1, false)
      ensures hasCallback ==> r == FirstDefined(old(names), old(bound), key)
      ensures names == old(names) && bound == old(bound) && sources == old(sources) && flags == old(flags)
    {
      if !hasCallback {
        FanoutGetFaults(names, bound, key, None);
        r := Execute(GetAction(key), false);
      } else {
        r := GetAsync(key);
      }
    }

    /** `set(key, value, callback)` (provider.js:233-235). */
    method Set(key: string, value: Value, hasCallback: bool) returns (r: Completion)
      modifies this
      ensures bound == Fanout(old(names), old(bound), SetAction(key, value), None).0
      ensures r == Reply(Fanout(old(names), old(bound), SetAction(key, value), None).1, hasCallback)
      ensures names == old(names) && sources == old(sources) && flags == old(flags)
    {
      r := Execute(SetAction(key, value), hasCallback);
    }

    /** `clear(key, callback)` (provider.js:252-254). */
    method Clear(key: string, hasCallback: bool) returns (r: Completion)
      modifies this
      ensures bound == Fanout(old(names), old(bound), ClearAction(key), None).0
      ensures r == Reply(Fanout(old(names), old(bound), ClearAction(key), None).1, hasCallback)
      ensures names == old(names) && sources == old(sources) && flags == old(flags)
    {
      r := Execute(ClearAction(key), hasCallback);
    }

    /** `reset(callback)` (provider.js:242-244). */
    method Reset(hasCallback: bool) returns (r: Completion)
      modifies this
      ensures bound == Fanout(old(names), old(bound), ResetAction, None).0
      ensures r == Reply(Fanout(old(names), old(bound), ResetAction, None).1, hasCallback)
      ensures names == old(names) && sources == old(sources) && flags == old(flags)
    {
      r := Execute(ResetAction, hasCallback);
    }

    /**
      `merge([key,] value [, callback])` (provider.js:266-286). A falsy key
      ("" here) merges into the root: only a non-array object can be merged
      there, property by property.
     */
    method Merge(key: string, value: Value, hasCallback: bool) returns (r: Completion)
      modifies this
      ensures key != "" ==>
        bound == Fanout(old(names), old(bound), MergeAction(key, value), None).0 &&
        r == Reply(Fanout(old(names), old(bound), MergeAction(key, value), None).1, hasCallback)
      ensures key == "" && (value.Arr? || !IsObjectType(value)) ==> r == OnError(TopLevelMerge, hasCallback) && bound == old(bound)
      ensures key == "" && value.Null? ==> r == Thrown(TypeError) && bound == old(bound)
      ensures key == "" && value.Obj? ==>
        bound == MergeEachTop(old(names), old(bound), value.props, value.props.Keys).0 &&
        r == (match MergeEachTop(old(names), old(bound), value.props, value.props.Keys).1
              case Some(e) => Thrown(e)
              case None => if hasCallback then CalledBack(None, None) else Returned(None))
      ensures names == old(names) && sources == old(sources) && flags == old(flags)
    {
      if key != "" {
        r := Execute(MergeAction(key, value), hasCallback);
        return;
      }
      if value.Arr? || !IsObjectType(value) {
        return OnError(TopLevelMerge, hasCallback);
      }
      if value.Null? {
        return Thrown(TypeError);
      }
      var todo := value.props.Keys;
      while todo != {}
        invariant todo <= value.props.Keys
        invariant names == old(names) && sources == old(sources) && flags == old(flags)
        invariant MergeEachTop(names, bound, value.props, todo) == MergeEachTop(old(names), old(bound), value.props, value.props.Keys)
        decreases |todo|
      {
        var q := Least(todo);
        var step := Execute(MergeAction(q, value.props[q]), true);
        if step.Thrown? {
          return step;
        }
        todo := todo - {q};
      }
      r := if hasCallback then CalledBack(None, None) else Returned(None);
    }

    /** `loadBatch(self.sources, …)`: loads every source in order; the sources keep what their loads leave. */
    method LoadSources(sync: bool) returns (b: Batch)
      modifies this
      ensures (sources, b) == SourceBatch(old(sources), backend, Loading, sync, [])
      ensures names == old(names) && bound == old(bound) && flags == old(flags)
    {
      var done: seq<Store> := [];
      var rest := sources;
      var acc: seq<Option<Value>> := [];
      assert done + SourceBatch(rest, backend, Loading, sync, acc).0 == SourceBatch(rest, backend, Loading, sync, acc).0;
      while |rest| > 0
        invariant SourceBatch(old(sources), backend, Loading, sync, []) ==
          (done + SourceBatch(rest, backend, Loading, sync, acc).0, SourceBatch(rest, backend, Loading, sync, acc).1)
        decreases |rest|
      {
        match Visit(rest[0], backend, Loading, sync)
        case Visited(s', d) =>
          assert done + ([s'] + SourceBatch(rest[1..], backend, Loading, sync, acc + [d]).0) ==
            (done + [s']) + SourceBatch(rest[1..], backend, Loading, sync, acc + [d]).0;
          done := done + [s'];
          rest := rest[1..];
          acc := acc + [d];
        case Raised(e) =>
          sources := done + rest;
          return Raising(e);
        case Reported(e) =>
          sources := done + rest;
          return Reporting(e);
      }
      assert done + [] == done;
      sources := done;
      b := Collected(acc);
    }

    /** `loadBatch(stores, …)`: loads every listed store in order. */
    method LoadStores(sync: bool) returns (b: Batch)
      modifies this
      ensures (bound, b) == NamedBatch(old(names), old(bound), backend, Loading, sync, [])
      ensures names == old(names) && sources == old(sources) && flags == old(flags)
    {
      var i := 0;
      var acc: seq<Option<Value>> := [];
      while i < |names|
        invariant 0 <= i <= |names|
        invariant names == old(names) && sources == old(sources) && flags == old(flags)
        invariant NamedBatch(names[i..], bound, backend, Loading, sync, acc) == NamedBatch(old(names), old(bound), backend, Loading, sync, [])
      {
        var n := names[i];
        if n !in bound {
          return Raising(TypeError);
        }
        match Visit(bound[n], backend, Loading, sync)
        case Visited(s', d) =>
          assert names[i..][1..] == names[i + 1..];
          bound := bound[n := s'];
          acc := acc + [d];
          i := i + 1;
        case Raised(e) =>
          return Raising(e);
        case Reported(e) =>
          return Reporting(e);
      }
      b := Collected(acc);
    }

    /** `mergeSources(data)`: merges a truthy object's properties into the "system" store. */
    method MergeSources(data: Value) returns (err: Option<Error>)
      modifies this
      ensures (bound, err) == MergeIntoSystem(old(bound), Mergeable(data), Mergeable(data).Keys)
      ensures names == old(names) && sources == old(sources) && flags == old(flags)
    {
      var props := Mergeable(data);
      var todo := props.Keys;
      while todo != {}
        invariant todo <= props.Keys
        invariant names == old(names) && sources == old(sources) && flags == old(flags)
        invariant MergeIntoSystem(bound, props, todo) == MergeIntoSystem(old(bound), props, props.Keys)
        decreases |todo|
      {
        if "system" !in bound {
          return Some(TypeError);
        }
        var q := Least(todo);
        var sys := bound["system"];
        var c := MemoryModel.Merge(sys.mem, q, props[q]);
        bound := bound["system" := sys.(mem := c.0)];
        if !c.1 {
          return Some(TypeError);
        }
        todo := todo - {q};
      }
      err := None;
    }

    /**
      What `load(callback)` does (provider.js:293-361): sources first, merged
      into "system", then every store. Every name stays bound and every source
      stays; without a continuation nothing is called back, and with one the
      call never simply returns; a sync load with a source lacking `loadSync`
      throws before any store is touched; a returned result is the combined data.
     */
    function LoadEffect(names: seq<string>, bound: map<string, Store>, sources: seq<Store>, hasCallback: bool): (r: (map<string, Store>, seq<Store>, Completion))
      ensures r.0.Keys == bound.Keys && |r.1| == |sources|
      ensures !hasCallback ==> !r.2.CalledBack?
      ensures hasCallback ==> !r.2.Returned?
      ensures !hasCallback && (exists i | 0 <= i < |sources| :: !sources[i].caps.loadSync) ==> r.2.Thrown? && r.0 == bound
      ensures r.2.Returned? ==> exists ds :: r.2 == Returned(Some(combine(ds)))
    {
      SyncSourcesNeedLoadSync(sources, backend, []);
      if |sources| == 0 then
        var nb := NamedBatch(names, bound, backend, Loading, !hasCallback, []);
        (nb.0, sources, Finish(nb.1, hasCallback, combine))
      else
        var sb := SourceBatch(sources, backend, Loading, !hasCallback, []);
        match sb.1
        case Raising(e) => (bound, sb.0, Thrown(e))
        case Reporting(e) => (bound, sb.0, CalledBack(Some(e), None))
        case Collected(ds) =>
          var data := Mergeable(combine(ds));
          var ms := MergeIntoSystem(bound, data, data.Keys);
          if ms.1.Some? then (ms.0, sb.0, Thrown(ms.1.value))
          else
            var nb := NamedBatch(names, ms.0, backend, Loading, !hasCallback, []);
            (nb.0, sb.0, Finish(nb.1, hasCallback, combine))
    }

    /**
      A sync load returns a result only when every source and every listed
      store has `loadSync`, for backends whose loads keep a store's methods.
     */
    lemma SyncLoadReturnsOnlyWithLoadSync(names: seq<string>, bound: map<string, Store>, sources: seq<Store>)
      requires KeepsCaps(backend)
      requires LoadEffect(names, bound, sources, false).2.Returned?
      ensures forall i | 0 <= i < |sources| :: sources[i].caps.loadSync
      ensures forall n | n in names :: n in bound && bound[n].caps.loadSync
    {
      SyncSourcesNeedLoadSync(sources, backend, []);
      if |sources| == 0 {
        SyncLoadNeedsLoadSync(names, bound, backend, []);
      } else {
        var sb := SourceBatch(sources, backend, Loading, true, []);
        var data := Mergeable(combine(sb.1.data));
        var ms := MergeIntoSystem(bound, data, data.Keys);
        SyncLoadNeedsLoadSync(names, ms.0, backend, []);
        forall n | n in names
          ensures n in bound && bound[n].caps.loadSync
        {
          var i :| 0 <= i < |names| && names[i] == n;
        }
      }
    }

    /** `load(callback)`. */
    method Load(hasCallback: bool) returns (r: Completion)
      modifies this
      ensures (bound, sources, r) == LoadEffect(old(names), old(bound), old(sources), hasCallback)
      ensures names == old(names) && flags == old(flags)
    {
      if |sources| == 0 {
        var b := LoadStores(!hasCallback);
        return Finish(b, hasCallback, combine);
      }
      var sb := LoadSources(!hasCallback);
      match sb
      case Raising(e) =>
        return Thrown(e);
      case Reporting(e) =>
        return CalledBack(Some(e), None);
      case Collected(ds) =>
        var err := MergeSources(combine(ds));
        if err.Some? {
          return Thrown(err.value);
        }
        var b := LoadStores(!hasCallback);
        r := Finish(b, hasCallback, combine);
    }

    /**
      `save(value, callback)` (provider.js:370-412): a function passed as
      the only argument is the continuation. Without one every store must
      have `saveSync`; with one each needs `save` or `saveSync`, and the
      continuation gets no result. It changes no store.
     */
    method Save(value: Arg, callback: Arg) returns (r: Completion)
      ensures var cb := if !Given(callback) && value.Fn? then Fn else callback;
        var b := NamedBatch(names, bound, backend, Saving, !Given(cb), []).1;
        r == (match b
              case Raising(e) => Thrown(e)
              case Reporting(e) => Deliver(cb, Some(e), None)
              case Collected(ds) => if Given(cb) then Deliver(cb, None, None) else Returned(Some(combine(ds))))
    {
      var cb := if !Given(callback) && value.Fn? then Fn else callback;
      var sync := !Given(cb);
      var local := bound;
      var i := 0;
      var acc: seq<Option<Value>> := [];
      while i < |names|
        invariant 0 <= i <= |names|
        invariant NamedBatch(names[i..], local, backend, Saving, sync, acc).1 == NamedBatch(names, bound, backend, Saving, sync, []).1
      {
        var n := names[i];
        if n !in local {
          return Thrown(TypeError);
        }
        match Visit(local[n], backend, Saving, sync)
        case Visited(s', d) =>
          assert names[i..][1..] == names[i + 1..];
          local := local[n := s'];
          acc := acc + [d];
          i := i + 1;
        case Raised(e) =>
          return Thrown(e);
        case Reported(e) =>
          return Deliver(cb, Some(e), None);
      }
      r := if Given(cb) then Deliver(cb, None, None) else Returned(Some(combine(acc)));
    }

    /**
      `updateSystem(prop, value)` (provider.js:491-502), run by the three
      setters: nothing when the system store's field is already `===` the
      value; otherwise `value || false` is written to the flag and to the
      system store, which then reloads with `loadSync`.
     */
    method UpdateSystem(f: Flag, value: Value) returns (err: Option<Error>)
      modifies this
      ensures "system" !in old(bound) ==> err == Some(TypeError) && bound == old(bound) && flags == old(flags)
      ensures "system" in old(bound) && StrictEq(value, Field(old(bound)["system"], FlagName(f))) ==>
        err.None? && bound == old(bound) && flags == old(flags)
      ensures "system" in old(bound) && !StrictEq(value, Field(old(bound)["system"], FlagName(f))) ==>
        var v := if Truthy(value) then value else Bool(false);
        var s := old(bound)["system"].(fields := old(bound)["system"].fields[FlagName(f) := v]);
        flags == WithFlag(old(flags), f, v) &&
        (if !s.caps.loadSync then err == Some(TypeError) && bound == old(bound)["system" := s]
         else match backend.loadSync(s)
           case Done(s', _) => err.None? && bound == old(bound)["system" := s']
           case Failed(e) => err == Some(e) && bound == old(bound)["system" := s])
      ensures names == old(names) && sources == old(sources)
      ensures bound.Keys == old(bound).Keys
    {
      if "system" !in bound {
        return Some(TypeError);
      }
      var sys := bound["system"];
      if StrictEq(value, Field(sys, FlagName(f))) {
        return None;
      }
      var v := if Truthy(value) then value else Bool(false);
      flags := WithFlag(flags, f, v);
      sys := sys.(fields := sys.fields[FlagName(f) := v]);
      bound := bound["system" := sys];
      if !sys.caps.loadSync {
        return Some(TypeError);
      }
      match backend.loadSync(sys)
      case Done(s', _) =>
        bound := bound["system" := s'];
        err := None;
      case Failed(e) =>
        err := Some(e);
    }
  }
}

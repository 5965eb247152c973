# nconf 0.1.7 core, modelled in Dafny

nconf builds a configuration out of stores. A store is a nested tree of
values whose keys are `:`-separated paths such as `"database:host"`. This
project models five pieces of nconf:

- The Memory store (`lib/nconf/stores/memory.js`), covering `get`, `set`,
  `clear`, `merge`, `reset` and the `mtimes` bookkeeping.
- The Literal and Env stores, which are Memory stores seeded by their
  constructors.
- The key codec `key`/`path`.
- The Provider (`lib/nconf/provider.js`). It keeps an ordered list of store
  names and fans every operation out over it.
- The single-store front in `lib/nconf.js`.

Modules:

- `Values` (values.dfy): JavaScript values and the JavaScript semantics the
  stores rely on:
  - truthiness;
  - `typeof v === 'object'`;
  - property read, write and delete;
  - a total order on keys that fixes the order in which `Object.keys` is
    visited.
- `Keys` (keys.dfy): `Join` is `key(...)` and `Split` is `path(key)`, with the
  round-trip laws.
- `MemoryModel` (memory_model.dfy): the Memory store as functions on a
  `MemState(store, mtimes)`. `Walk`, `Assign`, `Remove` and `MergeWalk` are
  the walks of `get`, `set`, `clear` and `merge`.
- `MemoryLaws` (memory_laws.dfy): what those functions promise:
  - get after set;
  - frame laws for paths apart from the written one;
  - when `clear` reaches its leaf;
  - merge versus set;
  - the union law of merge: properties the merged object does not name are
    kept, its non-object properties are written, and one level down the same
    holds for a property that is an object on both sides;
  - the Env contents.
- `MemoryStore` (memory.dfy): the imperative `Memory` class. Its methods run
  the source's `while` loops and are proved to compute the `MemoryModel`
  functions. `Literal` and `Env` are named constructors of this class.
- `Stores` (stores.dfy): a store as the provider sees it. That is its type,
  its own fields, its Memory state and which of `loadSync`/`load`/
  `saveSync`/`save` it has. The module also holds the errors with their exact
  messages and how a call completes (returned, thrown, or called back).
- `Providers` (provider.dfy): the `Provider` class. Each of its loops is
  proved against a front-to-back function over the names and bindings:
  - `Fanout` (`_execute`);
  - `FirstDefined` (callback `get`);
  - `SourceBatch` and `NamedBatch` (`loadBatch` and `save`);
  - `MergeIntoSystem` (`mergeSources`);
  - `MergeEachTop` (top-level `merge`).
- `Front` (nconf.dfy): the class `Nconf` with the active `store`.

The following are parameters of a provider or of the front, because they are
I/O or calls into code outside the modelled files:

- the set of store types `add` accepts;
- the reserved names (the keys of `Provider.prototype`);
- the store factory `create`;
- the stores' own load and save (`Backend`);
- `common.merge` (`combine`).

The environment of the Env store is a `map<string, string>` argument.

Where the code and its documentation disagree, the model follows the code:

- Sync `get` answers with the LAST store's value.
- Sync `set` and `clear` write to every store.
- `save` raises an error on a store without the needed method; it does not
  skip that store.
- A read through a truthy scalar raises the TypeError of `key in target`.
- `merge(k, null)` onto an existing object raises the TypeError of
  `Object.keys(null)`.
- `save(value, callback)` is documented as replacing the configuration with
  `value`. The code only uses `value` as the callback when it is a function,
  and otherwise ignores it.

## Model

| member | source | states |
|---|---|---|
| Keys.Split | lib/nconf/utils.js:14-16 | `path(key)` has at least one segment, one more than the separators in the key, and no segment contains `:` |
| Keys.JoinSplit | lib/nconf.js:141-152 | `key(path(k)) == k` for every string `k` |
| Keys.SplitSingle | lib/nconf/utils.js:14-16 | a key without `:` is a path of one segment |
| Keys.SplitAppend | lib/nconf/stores/memory.js:167-169 | the path of `key + ':' + p` is the path of `key` followed by the path of `p` |
| Keys.SplitJoin | lib/nconf/utils.js:10-16 | `path(key(s)) == s` for a non-empty `s` whose segments contain no `:` |
| Keys.SplitJoinNeedsSeparatorFreeSegments | lib/nconf/utils.js:10-16 | the condition is needed: `["a:b"]` does not survive the round trip |
| Values.ContainerIsTruthyObject | lib/nconf/stores/memory.js:70-74 | "truthy and `typeof 'object'`" holds exactly of objects and arrays |
| MemoryModel.Assign | lib/nconf/stores/memory.js:68-79 | the walk of `set` keeps the container kind, adds the first segment and keeps every other property |
| MemoryModel.Remove | lib/nconf/stores/memory.js:100-111 | the walk of `clear` keeps the kind of the tree it rebuilds |
| MemoryModel.MergeWalk | lib/nconf/stores/memory.js:145-165 | the walk of `merge` changes the tree only when it writes; on `{}` it always writes |
| MemoryModel.Set | lib/nconf/stores/memory.js:63 | `set` records the key in `mtimes` |
| MemoryModel.Clear | lib/nconf/stores/memory.js:95-107 | `clear` forgets the key's mtime; when it returns early the tree is unchanged |
| MemoryModel.Merge | lib/nconf/stores/memory.js:128-140 | `merge` of a non-object or an array is `set`; `merge` always records the key |
| MemoryModel.MergeEach | lib/nconf/stores/memory.js:167-169 | merging properties one by one never drops an mtime |
| MemoryModel.EnvStore | lib/nconf/stores/env.js:16-21 | the Env store's keys are exactly the prefixed names with the prefix cut off |
| MemoryLaws.ApartStep | lib/nconf/stores/memory.js:68-79 | two paths apart from each other that share a first segment are apart after it |
| MemoryLaws.WalkPrefix | lib/nconf/stores/memory.js:37-47 | reading a path is reading a prefix and then the rest from there; undefined and the TypeError propagate |
| MemoryLaws.FalsyIntermediateReadsUndefined | lib/nconf/stores/memory.js:37-41 | a falsy value part-way along the path (`0`, `''`, `null`, `false`) makes `get` undefined |
| MemoryLaws.TruthyPrimitiveIntermediateFaults | lib/nconf/stores/memory.js:39 | a truthy scalar part-way along the path makes `get` raise a TypeError |
| MemoryLaws.WalkAssign | lib/nconf/stores/memory.js:68-79 | after the walk of `set` the path reads back the value written |
| MemoryLaws.GetAfterSet | lib/nconf/stores/memory.js:56-81 | `get(k)` after `set(k, v)` is `v`, falsy values included |
| MemoryLaws.WalkAssignOther | lib/nconf/stores/memory.js:68-79 | the walk of `set` leaves every defined path apart from its own unchanged |
| MemoryLaws.SetKeepsOthers | lib/nconf/stores/memory.js:68-79 | `set(k1, v)` leaves every defined key that is neither a prefix nor an extension of `k1` as it was |
| MemoryLaws.AssignIntermediate | lib/nconf/stores/memory.js:68-80 | every intermediate is an object or array afterwards; an existing one keeps its kind and other properties, anything else is replaced by a fresh `{}` |
| MemoryLaws.WalkAfterRemove | lib/nconf/stores/memory.js:100-111 | after the walk of `clear` reaches the leaf, the path holds no value |
| MemoryLaws.ClearThenGet | lib/nconf/stores/memory.js:88-113 | after `clear(k)` returns true, `get(k)` is not a value |
| MemoryLaws.RemoveReachesLeaf | lib/nconf/stores/memory.js:100-111 | the walk of `clear` reaches its leaf if and only if every proper prefix reads a truthy value |
| MemoryLaws.ClearReportsReach | lib/nconf/stores/memory.js:88-113 | `clear(k)` returns true if and only if no intermediate is missing or falsy; otherwise it returns undefined without change |
| MemoryLaws.WalkRemoveOther | lib/nconf/stores/memory.js:100-111 | the walk of `clear` leaves every defined path apart from its own unchanged |
| MemoryLaws.ClearKeepsOthers | lib/nconf/stores/memory.js:88-113 | `clear(k1)` leaves every defined key apart from `k1` as it was |
| MemoryLaws.MergeWalkIsAssign | lib/nconf/stores/memory.js:145-165 | with no truthy scalar on the way and no object at the slot, the walk of `merge` is the walk of `set` |
| MemoryLaws.MergeOverwritesLikeSet | lib/nconf/stores/memory.js:162-165 | a slot holding a non-object or an array is overwritten exactly as `set` would |
| MemoryLaws.MergeWalkDescends | lib/nconf/stores/memory.js:160-165 | when the slot holds an object (or null) the walk changes nothing and merges into it |
| MemoryLaws.MergeWalkOther | lib/nconf/stores/memory.js:145-165 | the walk of `merge` leaves every defined path apart from its own unchanged |
| MemoryLaws.ApartExtend | lib/nconf/stores/memory.js:167-169 | extending a path keeps it apart from a path it was apart from |
| MemoryLaws.MergeFrame | lib/nconf/stores/memory.js:123-170 | `merge(k, v)`, recursion included, leaves every defined path apart from `k` unchanged |
| MemoryLaws.MergeEachFrame | lib/nconf/stores/memory.js:167-169 | the property-by-property merges leave every defined path apart from all of them unchanged |
| MemoryLaws.MergeKeepsAbsentKeys | lib/nconf/stores/memory.js:167-169 | merging an object into an object keeps each existing property the merged object does not name (the kept half of the union) |
| MemoryLaws.MergeEachVisits | lib/nconf/stores/memory.js:167-169 | a successful `every` merges property `y` from a state that still reads `key:y` as it started, that merge succeeds, and the later merges leave what it wrote below `key:y` as it was |
| MemoryLaws.MergeWritesProps | lib/nconf/stores/memory.js:115-169 | merging an object into an existing object writes each non-object (or array) property `y` so that `get(key:y)` reads it (the written half of the union) |
| MemoryLaws.MergeUnion | lib/nconf/stores/memory.js:115-169 | read through `get(key:x)`, the merge of an object into an object keeps what it does not name and holds what it writes |
| MemoryLaws.MergeUnionOneLevelDown | lib/nconf/stores/memory.js:160-169 | when a property is an object on both sides, `key:y:z` afterwards keeps the old value of each `z` the new object does not name and holds each non-object `z` it does |
| MemoryLaws.MergeScalarIsSet | lib/nconf/stores/memory.js:128-130 | `merge(k, v)` with `v` a non-object or an array is `set(k, v)` and returns true |
| MemoryLaws.MergeNullOntoObjectFaults | lib/nconf/stores/memory.js:167 | `merge(k, null)` onto an existing object raises (`Object.keys(null)`) after recording the mtime |
| MemoryLaws.ResetEmpties | lib/nconf/stores/memory.js:176-179 | after `reset()` every key is undefined and no mtime remains |
| MemoryLaws.SeededGet | lib/nconf/stores/literal.js:8-12 | a seeded store reads each of its top-level keys back and nothing else |
| MemoryLaws.EnvStoreContents | lib/nconf/stores/env.js:16-20 | a key is stored if and only if its prefixed name is in the environment, and it holds that variable's value unchanged |
| MemoryLaws.EnvStoreKeysFromPrefixedNames | lib/nconf/stores/env.js:17 | every name in the environment that starts with the prefix yields its stripped key, holding that variable's value |
| MemoryLaws.EnvStoreEmptyPrefix | lib/nconf/stores/env.js:11-18 | with an empty prefix the store is the whole environment |
| MemoryStore.Memory.constructor | lib/nconf/stores/memory.js:18-23 | a new Memory store is empty, with no mtimes |
| MemoryStore.Memory.Literal | lib/nconf/stores/literal.js:8-12 | `type` is "literal", `store` is the given object (or `{}`), `mtimes` is empty |
| MemoryStore.Memory.Env | lib/nconf/stores/env.js:9-22 | the loop over the environment builds exactly the prefix-filtered, prefix-stripped map; `type` is "env" |
| MemoryStore.Memory.Get | lib/nconf/stores/memory.js:30-48 | the path-shifting loop computes the walk of `get` |
| MemoryStore.Memory.Set | lib/nconf/stores/memory.js:56-81 | the descent loop and the write compute `Set`; it returns true |
| MemoryStore.Memory.Clear | lib/nconf/stores/memory.js:88-113 | the descent loop and the delete compute `Clear`, early return included |
| MemoryStore.Memory.Merge | lib/nconf/stores/memory.js:123-170 | the walk, the overwrite and the recursive property merges compute `Merge` |
| MemoryStore.Memory.Reset | lib/nconf/stores/memory.js:176-179 | both fields are emptied and it returns true |
| Stores.OnError | lib/nconf/provider.js:479-485 | the error goes to the callback if and only if there is one; otherwise it is thrown |
| Stores.Deliver | lib/nconf.js:84-86 | calling a callback that is not a function raises a TypeError |
| Stores.Apply | lib/nconf/provider.js:442-445 | a store action keeps the store's type, fields and methods; get changes nothing; set and reset return true; only get and merge throw |
| Stores.Lower | lib/nconf.js:30 | `toLowerCase` maps each ASCII capital to its small letter and keeps the length |
| Providers.SameOptionsIsShallow | lib/nconf/provider.js:95-99 | an option holding an object or array never counts as the same, so `use` replaces the store |
| Providers.IndexOf | lib/nconf/provider.js:163 | `indexOf` gives the first occurrence, or -1 exactly when the name is absent |
| Providers.RemoveFirstOccurrence | lib/nconf/provider.js:163 | the splice removes one occurrence and keeps the others in order |
| Providers.Fanout | lib/nconf/provider.js:442-447 | the sync fan-out keeps the set of bound names |
| Providers.Reply | lib/nconf/provider.js:436-447 | `_execute` throws a store's error, calls a callback with no arguments, else returns the last reply |
| Providers.FirstDefinedStopsAtFirstHit | lib/nconf/provider.js:198-223 | callback `get` answers with the first store that has a value, or the first error; if every store misses, the answer is undefined |
| Providers.FanoutGetFaults | lib/nconf/provider.js:189-191 | sync `get` changes no store, and throws if and only if some name is unbound or some store's walk faults |
| Providers.SyncGetIsLastStore | lib/nconf/provider.js:442-447 | sync `get` returns the last store's value, even when it is undefined |
| Providers.DistinctTail | lib/nconf/provider.js:442-445 | a distinct name list stays distinct after its head |
| Providers.UpdateAllStep | lib/nconf/provider.js:442-445 | updating the first listed store and then the rest is updating all of them |
| Providers.FanoutUpdatesEach | lib/nconf/provider.js:442-447 | over distinct bound names, the action runs exactly once on each listed store, leaves the others alone, and returns the last reply |
| Providers.FanoutFrame | lib/nconf/provider.js:442-445 | the fan-out leaves a store whose name is not listed as it was |
| Providers.SyncSetWritesEveryStore | lib/nconf/provider.js:233-235 | sync `set` over bound names, a name listed twice included, writes the value into every listed store and returns true |
| Providers.SyncAndCallbackGetDiffer | lib/nconf/provider.js:184-224 | with a key set in two stores, callback `get` answers the first store and sync `get` the last |
| Providers.MergeEachTop | lib/nconf/provider.js:273-282 | top-level merge keeps the set of bound names |
| Providers.Visit | lib/nconf/provider.js:297-313 | sync needs the sync method; callback mode needs either method; the missing-method errors carry the store type; saving changes no store |
| Providers.SourceBatch | lib/nconf/provider.js:315-323 | loading the sources keeps their number; the sync form never reports through a callback |
| Providers.NamedBatch | lib/nconf/provider.js:315-323 | loading the stores keeps the bound names and collects one result per store |
| Providers.SaveKeepsStores | lib/nconf/provider.js:370-412 | `save` changes no store |
| Providers.SyncSaveNeedsSaveSync | lib/nconf/provider.js:378-386 | a sync save that succeeds visited only bound stores that have `saveSync` |
| Providers.SyncLoadNeedsLoadSync | lib/nconf/provider.js:297-303 | a sync load that succeeds visited only bound stores that have `loadSync` |
| Providers.SyncSourcesNeedLoadSync | lib/nconf/provider.js:297-317 | a sync load of the sources that collects their data has found `loadSync` on every source |
| Providers.CallbackLoadNeedsSomeLoad | lib/nconf/provider.js:305-313 | a callback load that succeeds visited only bound stores that have `load` or `loadSync` |
| Providers.Finish | lib/nconf/provider.js:315-322 | a batch result is thrown, passed to the callback, or combined and returned |
| Providers.MergeIntoSystem | lib/nconf/provider.js:325-335 | merging source data touches only the "system" store; with data and no "system" store it throws |
| Providers.ReadFlag | lib/nconf/provider.js:455-474 | each getter reads its own field (corrected) |
| Providers.ReadFlagAsWritten | lib/nconf/provider.js:456 | as written, the `overrides` getter reads `_argv`; the other two read their own fields |
| Providers.ReadFlagAfterWrite | lib/nconf/provider.js:491-498 | a flag reads back what was written to it; the others are untouched |
| Providers.OverridesGetterReadsArgv | lib/nconf/provider.js:455-456 | as written, after `overrides = true` the getter answers false |
| Providers.Provider.constructor | lib/nconf/provider.js:27-33 | `_overrides` is `options.overrides` or null, `_argv` and `_env` are the options or false, with no stores and no sources |
| Providers.Provider.Added | lib/nconf/provider.js:140-142 | a store without `loadSync` is kept as created; otherwise it is what its `loadSync` leaves, or as created with the error that `loadSync` threw |
| Providers.Provider.AddEffect | lib/nconf/provider.js:125-145 | a reserved name or unknown type changes nothing; otherwise the name is appended and bound to the store created from `options.type \|\| name` after its eager `loadSync`, with that call's error, and other bindings are kept |
| Providers.Provider.Add | lib/nconf/provider.js:125-145 | `add` computes `AddEffect` on the names and bindings and keeps every bound name listed |
| Providers.Provider.Remove | lib/nconf/provider.js:154-165 | reserved or unbound names are rejected without change; otherwise the name is unbound and spliced out of the list |
| Providers.Provider.UseEffect | lib/nconf/provider.js:84-113 | "system" is a no-op; a reserved name is rejected; an unbound name is added; a bound one is removed and added again only when some option differs |
| Providers.Provider.Use | lib/nconf/provider.js:84-113 | `use` computes `UseEffect` and keeps every bound name listed |
| Providers.Provider.UseWithOwnOptionsKeepsStore | lib/nconf/provider.js:95-104 | `use` with options that are scalars equal to the store's own fields keeps the store, the list and every binding |
| Providers.Provider.UseWithChangedOptionReplaces | lib/nconf/provider.js:95-110 | `use` with an option that differs from the store's field replaces the store by a new one from the new options, listed last, other bindings kept |
| Providers.RemoveKeepsListed | lib/nconf/provider.js:162-163 | unbinding a name and splicing its first occurrence out keeps every other bound name listed |
| Providers.Provider.UseMovesReplacedStoreLast | lib/nconf/provider.js:105-110 | when every bound name is listed, a replaced store moves to the end and the others keep their order |
| Providers.Provider.Init | lib/nconf/provider.js:40-70 | after construction the list starts with "system"; a failing first `add` is reported |
| Providers.Provider.AddEach | lib/nconf/provider.js:52-56 | the `options.stores` loop only appends names; a null entry fails with a TypeError; with no error it lists one store per entry; it keeps every bound name listed |
| Providers.Provider.AddConfigured | lib/nconf/provider.js:46-57 | `options.type` and `options.store` are one `add` each, with the name and options the source passes; `options.stores` is `AddEach`; with none of them nothing changes |
| Providers.Provider.CreateSource | lib/nconf/provider.js:174-176 | creating a source succeeds exactly for a known lowercased type |
| Providers.Provider.SourcesEach | lib/nconf/provider.js:65-69 | the `options.sources` loop only appends sources; it fails with a TypeError exactly when some entry is null or names an unknown type; with no error it appends one source per entry |
| Providers.Provider.AddSources | lib/nconf/provider.js:62-70 | `options.source` appends one created source or is a TypeError; `options.sources` is `SourcesEach`; the store list and bindings never change |
| Providers.Provider.Execute | lib/nconf/provider.js:422-448 | the `forEach` loop computes the fan-out and its completion |
| Providers.Provider.GetAsync | lib/nconf/provider.js:198-223 | the `whilst` loop computes the first-defined lookup |
| Providers.Provider.Get | lib/nconf/provider.js:184-224 | no callback: the fan-out; callback: the first-defined lookup; no store changes |
| Providers.Provider.Set | lib/nconf/provider.js:233-235 | `set` is the fan-out of the store `set` |
| Providers.Provider.Clear | lib/nconf/provider.js:252-254 | `clear` is the fan-out of the store `clear` |
| Providers.Provider.Reset | lib/nconf/provider.js:242-244 | `reset` is the fan-out of the store `reset` |
| Providers.Provider.Merge | lib/nconf/provider.js:266-286 | a keyed merge fans out; a keyless merge of a non-object or array fails through `onError`; a keyless object merges property by property |
| Providers.Provider.LoadSources | lib/nconf/provider.js:315-323 | the loop over the sources computes the source batch |
| Providers.Provider.LoadStores | lib/nconf/provider.js:315-323 | the loop over the stores computes the store batch |
| Providers.Provider.MergeSources | lib/nconf/provider.js:325-335 | the loop merges each property of a truthy object into "system" |
| Providers.Provider.LoadEffect | lib/nconf/provider.js:293-361 | every name stays bound and every source stays; a sync load never calls back and a callback load never simply returns; a sync load with a source lacking `loadSync` throws with the stores untouched; a returned result is the combined data |
| Providers.Provider.SyncLoadReturnsOnlyWithLoadSync | lib/nconf/provider.js:297-346 | a sync load returns a result only when every source and every listed store has `loadSync` (for backends whose loads keep a store's methods) |
| Providers.Provider.Load | lib/nconf/provider.js:293-361 | `load` computes `LoadEffect`: sources first, merged into "system", then every store |
| Providers.Provider.Save | lib/nconf/provider.js:370-412 | a lone function argument is the callback; each store needs its method; success calls back with nothing or returns the combined data |
| Providers.Provider.UpdateSystem | lib/nconf/provider.js:491-501 | an `===` value changes nothing; otherwise `value \|\| false` is written to the flag and the system store, which then reloads |
| Front.LoadFront | lib/nconf.js:71-92 | loadSync is used when there is no callback; a missing `load` fails through the callback or by throwing; a function callback is always called |
| Front.SaveFront | lib/nconf.js:101-126 | the value stands in for a missing callback; saveSync is used when there is still none; a missing `save` fails as in `load` |
| Front.FrontGetAfterSet | lib/nconf.js:41-54 | through the front, `get(k)` after `set(k, v)` returns `v` |
| Front.FrontGetAfterClear | lib/nconf.js:41-64 | through the front, `get(k)` after a successful `clear(k)` returns no value |
| Front.Nconf.constructor | lib/nconf.js:157 | the front starts with a "memory" store |
| Front.Nconf.Use | lib/nconf.js:29-33 | the store is replaced only when the lowercased type differs from the active store's type |
| Front.Nconf.Get | lib/nconf.js:41-43 | forwards to the active store: its value, or the TypeError of its walk |
| Front.Nconf.Set | lib/nconf.js:52-54 | forwards to the active store and returns true |
| Front.Nconf.Clear | lib/nconf.js:62-64 | forwards to the active store |
| Front.Nconf.Reset | lib/nconf.js:133-135 | forwards to the active store and returns true |
| Front.Nconf.Load | lib/nconf.js:71-92 | computes the capability dispatch of `load` and keeps what the store's load leaves |
| Front.Nconf.Save | lib/nconf.js:101-126 | computes the capability dispatch of `save` |

## Left out

Objects are values in this model, not references:
- Aliasing and object identity are not modelled. A nested Memory tree is a value, and an in-place write is modelled as rebuilding the path up to the root.
- Literal uses the caller's object itself, so a later change to that object shows through the store. The model copies the map instead.
- Stores are also values. `load` in the Provider reads the stores through the bindings rather than through the array it captures at the start; the two agree because every change to a store is written back.
- `===` on objects and arrays is taken to be false. A value that is the very object already in a store field would count as equal in JavaScript.

JavaScript details:
- Array `length` is not modelled. An array is a property map keyed by index strings.
- Index properties of strings are not modelled; scalars have no properties.
- The prototype chain is not modelled (`'toString' in {}` is false here).
- `Object.keys` is visited in ascending key order, because a map has no insertion order.
- `toLowerCase` is modelled for ASCII only.
- Writes onto a primitive intermediate during `merge` are lost, as in sloppy mode; the model does not write them.
- Date timestamps in `mtimes` are not modelled. Only which keys are recorded is modelled.

Concurrency and async paths:
- `Providers.Provider.Load`, `Providers.Provider.Save`: the callback forms are modelled as stopping at the first error. `async.map` starts the method on every store in one pass, so after store i reports an error through `next(err)` (provider.js:307, 312, 392) the later stores are still loaded or saved, and their `loadSync` runs (provider.js:310-311, 320). The model leaves those later stores untouched.
- Stores whose methods take a continuation are not modelled, so two branches are left out: callback `get` on a store with `store.get.length >= 2` (provider.js:208-216), and `_execute` on a store with `store[action].length > syncLength` (provider.js:431-432). Every store in this model has the Memory store's sync methods. The Redis store is such a store and is not part of this model.
- The asynchronous continuation of a store's own `load`/`save` is not modelled. Each of the four methods is a function from the store to its data or an error.
- `Front.LoadFront`: when the store has `load` but there is no callback, calling it is modelled as the TypeError of calling the missing callback. The store may instead call it later, outside the call.

Options and names:
- Option values that are not strings are treated as absent where a name or type is read (`Text`). An option `type` that is a truthy non-string is therefore ignored.
- Store names that collide with the provider's own fields (`sources`, `_stores`, `_argv`, …) are not modelled. `this[name]` is a separate map of bindings.
- `merge`'s argument shuffling (`[key,] value [, callback]`) is not modelled. The key is given, with `""` for no key.
- The Memory store methods ignore a callback argument, so the front passes none.

Factories and other code:
- `lib/nconf.js` calls `new nconf.stores.create(type, options)`, but `lib/nconf/stores.js` defines no `create`. The front therefore takes its store factory as a parameter.
- `common.capitalize` and the store constructors are summed up by the set of known types and by `create`.
- The File, Redis, Watch, System and Argv stores are not part of this model, nor are the formats and `common.loadFiles`. Their load and save I/O is the `Backend` parameter.
- `lib/nconf/stores/system.js:62` defines `Argv.prototype.loadArgv` although `Argv` is not defined in that file, so loading the System store throws in this version. That makes `new Provider()`, which adds "system", throw as written. The model takes the store factory as a parameter and does not reproduce this.
- `Providers.SyncLoadNeedsLoadSync`, `Providers.CallbackLoadNeedsSomeLoad`, `Providers.Provider.SyncLoadReturnsOnlyWithLoadSync`: stated only for backends whose own load does not add or remove the store's methods (`KeepsCaps`). A load that does could make the result disagree with the stores as they were.
- `Front.FrontGetAfterClear`: states "no value" rather than undefined, because `clear("a:b")` with `a` holding a truthy scalar returns true and a later `get` raises.
- `Providers.Provider.Init`: states the order of the first store and the error of the first `add`. The later adds are stated by `AddConfigured` (each of its three branches) and `AddSources` (both of its branches).

## Findings

| source | as written | input that shows it | evidently intended | confidence | as-written member | corrected member |
|---|---|---|---|---|---|---|
| lib/nconf/provider.js:456 | the `overrides` getter returns `this._argv` | a default provider with `overrides = true` set: the getter answers `false` | return `this._overrides`, which the setter writes (lines 455, 499) | high, not executed | Providers.ReadFlagAsWritten, Providers.OverridesGetterReadsArgv | Providers.ReadFlag, Providers.ReadFlagAfterWrite |

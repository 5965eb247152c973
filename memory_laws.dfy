/**
  What the Memory store promises, proved about the functions of MemoryModel:
  a read after a write, what a write does and does not disturb, when `clear`
  reports success, and how `merge` relates to `set`.
 */
module MemoryLaws {
  import opened Values
  import opened MemoryModel
  import Keys

  /** Two paths neither of which is a prefix of the other name two disjoint parts of a tree. */
  predicate Apart(p: seq<string>, q: seq<string>)
  {
    !(p <= q) && !(q <= p)
  }

  /** Two apart paths that start alike are both longer than one segment, and their tails are apart. */
  lemma ApartStep(p: seq<string>, q: seq<string>)
    requires |p| >= 1 && |q| >= 1 && p[0] == q[0] && Apart(p, q)
    ensures |p| > 1 && |q| > 1 && Apart(p[1..], q[1..])
  {
    assert p == [p[0]] + p[1..] && q == [q[0]] + q[1..];
  }

  /** A read that lands on a truthy primitive: walking on from it raises a TypeError. */
  predicate TruthyPrimitive(r: Read)
  {
    r.Defined? && Truthy(r.value) && !IsContainer(r.value)
  }

  /** A read that lands on something `merge` merges into rather than overwrites: an object or `null`. */
  predicate ObjectSlot(r: Read)
  {
    r.Defined? && IsObjectType(r.value) && !r.value.Arr?
  }

  // ---------------------------------------------------------------- walks

  /** Reading along a path is reading its first `j` segments and then the rest from there. */
  lemma {:induction false} WalkPrefix(t: Value, p: seq<string>, j: nat)
    requires 1 <= j < |p|
    ensures Walk(t, p[..j]).Undefined? ==> Walk(t, p) == Undefined
    ensures Walk(t, p[..j]).TypeFault? ==> Walk(t, p) == TypeFault
    ensures Walk(t, p[..j]).Defined? ==> Walk(t, p) == Walk(Walk(t, p[..j]).value, p[j..])
  {
    if j > 1 && Truthy(t) && IsContainer(t) && p[0] in Props(t) {
      assert p[..j][1..] == p[1..][..j - 1];
      assert p[j..] == p[1..][j - 1..];
      WalkPrefix(Props(t)[p[0]], p[1..], j - 1);
    }
  }

  /** A falsy value part-way along a path makes the read `undefined`. */
  lemma FalsyIntermediateReadsUndefined(t: Value, p: seq<string>, j: nat)
    requires 1 <= j < |p|
    requires Walk(t, p[..j]).Defined? && !Truthy(Walk(t, p[..j]).value)
    ensures Walk(t, p) == Undefined
  {
    WalkPrefix(t, p, j);
  }

  /** A truthy primitive part-way along a path makes the read raise a TypeError (`key in target`). */
  lemma TruthyPrimitiveIntermediateFaults(t: Value, p: seq<string>, j: nat)
    requires 1 <= j < |p|
    requires TruthyPrimitive(Walk(t, p[..j]))
    ensures Walk(t, p) == TypeFault
  {
    WalkPrefix(t, p, j);
  }

  // ---------------------------------------------------------------- set

  /** After `Assign` the path reads back the value written. */
  lemma {:induction false} WalkAssign(t: Value, p: seq<string>, v: Value)
    requires |p| >= 1 && IsContainer(t)
    ensures Walk(Assign(t, p, v), p) == Defined(v)
    decreases |p|
  {
    if |p| > 1 {
      WalkAssign(Descend(t, p[0]), p[1..], v);
    }
  }

  /** `get(key)` after `set(key, v)` returns `v`. */
  lemma GetAfterSet(m: MemState, key: string, v: Value)
    ensures Get(Set(m, key, v), key) == Defined(v)
  {
    WalkAssign(Obj(m.store), Keys.Split(key), v);
  }

  /** `Assign` leaves every value on a path apart from the written one as it was. */
  lemma {:induction false} WalkAssignOther(t: Value, p: seq<string>, q: seq<string>, v: Value)
    requires |p| >= 1 && |q| >= 1 && IsContainer(t)
    requires Apart(p, q) && Walk(t, q).Defined?
    ensures Walk(Assign(t, p, v), q) == Walk(t, q)
  {
    if p[0] == q[0] {
      ApartStep(p, q);
      var c := Props(t)[q[0]];
      assert Descend(t, p[0]) == c;
      WalkAssignOther(c, p[1..], q[1..], v);
    }
  }

  /** `set(k1, v)` leaves `get(k2)` as it was when the two paths are apart and `k2` held a value. */
  lemma SetKeepsOthers(m: MemState, k1: string, k2: string, v: Value)
    requires Apart(Keys.Split(k1), Keys.Split(k2)) && Get(m, k2).Defined?
    ensures Get(Set(m, k1, v), k2) == Get(m, k2)
  {
    WalkAssignOther(Obj(m.store), Keys.Split(k1), Keys.Split(k2), v);
  }

  /**
    Every intermediate that `Assign` passes through is an object afterwards. An
    object or array that was already there keeps its kind and all its other
    properties; anything else (missing, a primitive) was replaced by a fresh
    object holding only the next segment.
   */
  lemma {:induction false} AssignIntermediate(t: Value, p: seq<string>, v: Value, j: nat)
    requires IsContainer(t) && 1 <= j < |p|
    ensures Walk(Assign(t, p, v), p[..j]).Defined?
    ensures IsContainer(Walk(Assign(t, p, v), p[..j]).value)
    ensures
      var c := Walk(Assign(t, p, v), p[..j]).value;
      var old_ := Walk(t, p[..j]);
      if old_.Defined? && IsContainer(old_.value) then
        c.Arr? == old_.value.Arr? &&
        (forall q | q in Props(old_.value) && q != p[j] :: q in Props(c) && Props(c)[q] == Props(old_.value)[q])
      else
        c.Obj? && Props(c).Keys == {p[j]}
    decreases |p|
  {
    var d := Descend(t, p[0]);
    var a := Assign(t, p, v);
    assert a == Put(t, p[0], Assign(d, p[1..], v));
    if j == 1 {
      assert p[..1] == [p[0]] && p[1..][0] == p[j];
    } else {
      assert p[..j][1..] == p[1..][..j - 1];
      assert p[1..][j - 1] == p[j];
      AssignIntermediate(d, p[1..], v, j - 1);
      if p[0] in Props(t) && !IsContainer(Props(t)[p[0]]) {
        var c0 := Props(t)[p[0]];
        assert Walk(Obj(map[]), p[1..][..j - 1]) == Undefined;
        assert !Walk(c0, p[1..][..j - 1]).Defined? by {
          if Truthy(c0) {
            assert Walk(c0, p[1..][..j - 1]) == TypeFault;
          }
        }
      }
    }
  }

  // ---------------------------------------------------------------- clear

  /** After a `Remove` that reached its leaf, the path holds no value. */
  lemma {:induction false} WalkAfterRemove(t: Value, p: seq<string>)
    requires |p| >= 1 && Remove(t, p).Some?
    ensures !Walk(Remove(t, p).value, p).Defined?
  {
    if |p| > 1 {
      var c := Prop(t, p[0]);
      WalkAfterRemove(c.value, p[1..]);
    }
  }

  /** `get(key)` after a `clear(key)` that returned true is not a value. */
  lemma ClearThenGet(m: MemState, key: string)
    requires Clear(m, key).1
    ensures !Get(Clear(m, key).0, key).Defined?
  {
    WalkAfterRemove(Obj(m.store), Keys.Split(key));
  }

  /** `Remove` reaches its leaf exactly when every proper prefix of the path reads a truthy value. */
  lemma {:induction false} RemoveReachesLeaf(t: Value, p: seq<string>)
    requires |p| >= 1
    ensures Remove(t, p).Some? <==>
      forall j | 1 <= j < |p| :: Walk(t, p[..j]).Defined? && Truthy(Walk(t, p[..j]).value)
  {
    if |p| > 1 {
      assert p[..1] == [p[0]];
      if IsContainer(t) && p[0] in Props(t) && Truthy(Props(t)[p[0]]) {
        var c := Props(t)[p[0]];
        RemoveReachesLeaf(c, p[1..]);
        forall j | 2 <= j < |p|
          ensures Walk(t, p[..j]) == Walk(c, p[1..][..j - 1])
        {
          assert p[..j][1..] == p[1..][..j - 1];
        }
        if Remove(t, p).Some? {
          forall j | 1 <= j < |p|
            ensures Walk(t, p[..j]).Defined? && Truthy(Walk(t, p[..j]).value)
          {
            if j > 1 {
              assert Walk(c, p[1..][..j - 1]).Defined?;
            }
          }
        } else {
          var j' :| 1 <= j' < |p| - 1 && !(Walk(c, p[1..][..j']).Defined? && Truthy(Walk(c, p[1..][..j']).value));
          assert Walk(t, p[..j' + 1]) == Walk(c, p[1..][..j']);
        }
      } else {
        assert !(Walk(t, p[..1]).Defined? && Truthy(Walk(t, p[..1]).value));
      }
    }
  }

  /**
    `clear(key)` returns true exactly when every proper prefix of the key's path
    reads a truthy value; otherwise it returns early (undefined).
   */
  lemma ClearReportsReach(m: MemState, key: string)
    ensures Clear(m, key).1 <==>
      forall j | 1 <= j < |Keys.Split(key)| ::
        Walk(Obj(m.store), Keys.Split(key)[..j]).Defined? && Truthy(Walk(Obj(m.store), Keys.Split(key)[..j]).value)
  {
    RemoveReachesLeaf(Obj(m.store), Keys.Split(key));
  }

  /** `Remove` leaves every value on a path apart from the removed one as it was. */
  lemma {:induction false} WalkRemoveOther(t: Value, p: seq<string>, q: seq<string>)
    requires |p| >= 1 && |q| >= 1 && Apart(p, q)
    requires Remove(t, p).Some? && Walk(t, q).Defined?
    ensures Walk(Remove(t, p).value, q) == Walk(t, q)
  {
    if p[0] == q[0] {
      ApartStep(p, q);
      WalkRemoveOther(Props(t)[q[0]], p[1..], q[1..]);
    }
  }

  /** `clear(k1)` leaves `get(k2)` as it was when the two paths are apart and `k2` held a value. */
  lemma ClearKeepsOthers(m: MemState, k1: string, k2: string)
    requires Apart(Keys.Split(k1), Keys.Split(k2)) && Get(m, k2).Defined?
    ensures Get(Clear(m, k1).0, k2) == Get(m, k2)
  {
    if Clear(m, k1).1 {
      WalkRemoveOther(Obj(m.store), Keys.Split(k1), Keys.Split(k2));
    }
  }

  // ---------------------------------------------------------------- merge

  /**
    When no intermediate is a truthy primitive and the slot is not an object,
    the walk of `merge` does what `set` does.
   */
  lemma {:induction false} MergeWalkIsAssign(t: Value, p: seq<string>, v: Value)
    requires |p| >= 1 && IsContainer(t)
    requires forall j | 1 <= j < |p| :: !TruthyPrimitive(Walk(t, p[..j]))
    requires !ObjectSlot(Walk(t, p))
    ensures MergeWalk(t, p, v) == (Assign(t, p, v), Replaced)
    decreases |p|
  {
    if |p| > 1 {
      assert p[..1] == [p[0]];
      var c := Prop(t, p[0]);
      var next := if c.Some? && Truthy(c.value) then c.value else Obj(map[]);
      assert !TruthyPrimitive(Walk(t, p[..1]));
      assert next == Descend(t, p[0]);
      forall j | 1 <= j < |p| - 1
        ensures !TruthyPrimitive(Walk(next, p[1..][..j]))
      {
        if next == Obj(map[]) {
          assert Walk(next, p[1..][..j]) == Undefined;
        } else {
          assert p[..j + 1][1..] == p[1..][..j];
          assert Walk(t, p[..j + 1]) == Walk(next, p[1..][..j]);
        }
      }
      MergeWalkIsAssign(next, p[1..], v);
    }
  }

  /** `merge` on such a path and value is `set`: it overwrites rather than merges. */
  lemma MergeOverwritesLikeSet(m: MemState, key: string, v: Value)
    requires forall j | 1 <= j < |Keys.Split(key)| :: !TruthyPrimitive(Walk(Obj(m.store), Keys.Split(key)[..j]))
    requires !ObjectSlot(Get(m, key))
    ensures Merge(m, key, v) == (Set(m, key, v), true)
  {
    if IsObjectType(v) && !v.Arr? {
      MergeWalkIsAssign(Obj(m.store), Keys.Split(key), v);
    }
  }

  /** When the path already reads an object (or null), the walk of `merge` descends without changing the tree. */
  lemma {:induction false} MergeWalkDescends(t: Value, p: seq<string>, v: Value)
    requires |p| >= 1 && ObjectSlot(Walk(t, p))
    ensures MergeWalk(t, p, v) == (t, Descended)
  {
    if |p| > 1 {
      MergeWalkDescends(Props(t)[p[0]], p[1..], v);
    }
  }

  /** The walk of `merge` leaves every value on a path apart from its own as it was. */
  lemma {:induction false} MergeWalkOther(t: Value, p: seq<string>, q: seq<string>, v: Value)
    requires |p| >= 1 && |q| >= 1 && Apart(p, q) && Walk(t, q).Defined?
    ensures Walk(MergeWalk(t, p, v).0, q) == Walk(t, q)
  {
    if p[0] == q[0] {
      ApartStep(p, q);
      MergeWalkOther(Props(t)[q[0]], p[1..], q[1..], v);
    }
  }

  /** Extending a path keeps it apart from a path it was apart from. */
  lemma ApartExtend(p: seq<string>, x: seq<string>, q: seq<string>)
    requires Apart(p, q)
    ensures Apart(p + x, q)
  {
  }

  /** `merge(key, v)` leaves `get` on a path apart from the key's path as it was. */
  lemma {:induction false} MergeFrame(m: MemState, key: string, v: Value, q: seq<string>)
    requires |q| >= 1 && Apart(Keys.Split(key), q) && Walk(Obj(m.store), q).Defined?
    ensures Walk(Obj(Merge(m, key, v).0.store), q) == Walk(Obj(m.store), q)
    decreases v, 1
  {
    if !IsObjectType(v) || v.Arr? {
      WalkAssignOther(Obj(m.store), Keys.Split(key), q, v);
    } else {
      var w := MergeWalk(Obj(m.store), Keys.Split(key), v);
      MergeWalkOther(Obj(m.store), Keys.Split(key), q, v);
      if w.1 == Descended && v.Obj? {
        var m1 := MemState(w.0.props, m.mtimes + {key});
        forall x | x in v.props.Keys
          ensures Apart(Keys.Split(key + [Keys.Sep] + x), q)
        {
          Keys.SplitAppend(key, x);
          ApartExtend(Keys.Split(key), Keys.Split(x), q);
        }
        MergeEachFrame(m1, key, v.props, v.props.Keys, q);
      }
    }
  }

  /** The properties merged one by one all leave a path apart from each of theirs as it was. */
  lemma {:induction false} MergeEachFrame(m: MemState, key: string, props: map<string, Value>, todo: set<string>, q: seq<string>)
    requires todo <= props.Keys && |q| >= 1 && Walk(Obj(m.store), q).Defined?
    requires forall x | x in todo :: Apart(Keys.Split(key + [Keys.Sep] + x), q)
    ensures Walk(Obj(MergeEach(m, key, props, todo).0.store), q) == Walk(Obj(m.store), q)
    decreases Obj(props), 0, |todo|
  {
    if todo != {} {
      var x := Least(todo);
      var r' := Merge(m, key + [Keys.Sep] + x, props[x]);
      MergeFrame(m, key + [Keys.Sep] + x, props[x], q);
      if r'.1 {
        MergeEachFrame(r'.0, key, props, todo - {x}, q);
      }
    }
  }

  /**
    Merging an object into an existing object keeps every property of the
    existing object that the merged object does not mention (the kept half of
    the union), provided the merged object's own keys contain no ':'.
   */
  lemma MergeKeepsAbsentKeys(m: MemState, key: string, existing: map<string, Value>, v: map<string, Value>, x: string)
    requires Get(m, key) == Defined(Obj(existing))
    requires x in existing && x !in v
    requires forall y | y in v :: Keys.Sep !in y
    ensures Walk(Obj(Merge(m, key, Obj(v)).0.store), Keys.Split(key) + [x]) == Defined(existing[x])
  {
    var p := Keys.Split(key);
    var t := Obj(m.store);
    MergeWalkDescends(t, p, Obj(v));
    WalkPrefix(t, p + [x], |p|);
    assert (p + [x])[..|p|] == p && (p + [x])[|p|..] == [x];
    var m1 := MemState(m.store, m.mtimes + {key});
    forall y | y in v.Keys
      ensures Apart(Keys.Split(key + [Keys.Sep] + y), p + [x])
    {
      Keys.SplitAppend(key, y);
      Keys.SplitSingle(y);
      assert (p + [y])[|p|] == y && (p + [x])[|p|] == x;
    }
    MergeEachFrame(m1, key, v, v.Keys, p + [x]);
  }

  /**
    The per-property merges of a successful `every` reach property `y` from a
    state `before` that still reads the path `key:y` as it started, that merge
    succeeds, and the later merges leave everything below `key:y` that it wrote
    as it was.
   */
  lemma {:induction false} MergeEachVisits(m: MemState, key: string, props: map<string, Value>, todo: set<string>, y: string, q: seq<string>)
    returns (before: MemState)
    requires todo <= props.Keys && y in todo
    requires forall x | x in props :: Keys.Sep !in x
    requires MergeEach(m, key, props, todo).1
    requires |q| > |Keys.Split(key)| && q[..|Keys.Split(key)| + 1] == Keys.Split(key) + [y]
    ensures Merge(before, key + [Keys.Sep] + y, props[y]).1
    ensures Walk(Obj(m.store), Keys.Split(key) + [y]).Defined? ==>
      Walk(Obj(before.store), Keys.Split(key) + [y]) == Walk(Obj(m.store), Keys.Split(key) + [y])
    ensures Walk(Obj(Merge(before, key + [Keys.Sep] + y, props[y]).0.store), q).Defined? ==>
      Walk(Obj(MergeEach(m, key, props, todo).0.store), q) == Walk(Obj(Merge(before, key + [Keys.Sep] + y, props[y]).0.store), q)
    decreases |todo|
  {
    var p := Keys.Split(key);
    var x := Least(todo);
    var r' := Merge(m, key + [Keys.Sep] + x, props[x]);
    assert r'.1;
    Keys.SplitAppend(key, x);
    Keys.SplitSingle(x);
    if x == y {
      before := m;
      if Walk(Obj(r'.0.store), q).Defined? {
        forall z | z in todo - {x}
          ensures Apart(Keys.Split(key + [Keys.Sep] + z), q)
        {
          Keys.SplitAppend(key, z);
          Keys.SplitSingle(z);
          assert (p + [z])[|p|] == z && q[|p|] == (p + [y])[|p|] == y;
        }
        MergeEachFrame(r'.0, key, props, todo - {x}, q);
      }
    } else {
      assert (p + [x])[|p|] == x && (p + [y])[|p|] == y;
      if Walk(Obj(m.store), p + [y]).Defined? {
        MergeFrame(m, key + [Keys.Sep] + x, props[x], p + [y]);
      }
      before := MergeEachVisits(r'.0, key, props, todo - {x}, y, q);
    }
  }

  /**
    Merging an object into an existing object writes each of its properties
    that is not itself an object (or is an array) under `key:y`, as `set`
    would, provided the merged object's own keys contain no ':'.
   */
  lemma MergeWritesProps(m: MemState, key: string, existing: map<string, Value>, v: map<string, Value>, y: string)
    requires Get(m, key) == Defined(Obj(existing))
    requires y in v && (!IsObjectType(v[y]) || v[y].Arr?)
    requires forall x | x in v :: Keys.Sep !in x
    requires Merge(m, key, Obj(v)).1
    ensures Get(Merge(m, key, Obj(v)).0, key + [Keys.Sep] + y) == Defined(v[y])
  {
    var p := Keys.Split(key);
    MergeWalkDescends(Obj(m.store), p, Obj(v));
    var m1 := MemState(m.store, m.mtimes + {key});
    Keys.SplitAppend(key, y);
    Keys.SplitSingle(y);
    assert (p + [y])[..|p| + 1] == p + [y];
    var before := MergeEachVisits(m1, key, v, v.Keys, y, p + [y]);
    GetAfterSet(before, key + [Keys.Sep] + y, v[y]);
  }

  /**
    One level down the union law recurs: when property `y` is an object on both
    sides, `key:y` afterwards keeps each existing property that `v[y]` does not
    mention and holds each non-object property of `v[y]`, for every property
    name `z` that a key can address (one without ':').
   */
  lemma MergeUnionOneLevelDown(m: MemState, key: string, existing: map<string, Value>, v: map<string, Value>,
                               y: string, e: map<string, Value>, w: map<string, Value>, z: string)
    requires Get(m, key) == Defined(Obj(existing))
    requires y in existing && existing[y] == Obj(e) && y in v && v[y] == Obj(w)
    requires forall x | x in v :: Keys.Sep !in x
    requires forall x | x in w :: Keys.Sep !in x
    requires Keys.Sep !in z
    requires Merge(m, key, Obj(v)).1
    ensures z in e && z !in w ==>
      Get(Merge(m, key, Obj(v)).0, key + [Keys.Sep] + y + [Keys.Sep] + z) == Defined(e[z])
    ensures z in w && (!IsObjectType(w[z]) || w[z].Arr?) ==>
      Get(Merge(m, key, Obj(v)).0, key + [Keys.Sep] + y + [Keys.Sep] + z) == Defined(w[z])
  {
    var p := Keys.Split(key);
    var t := Obj(m.store);
    MergeWalkDescends(t, p, Obj(v));
    var m1 := MemState(m.store, m.mtimes + {key});
    var ky := key + [Keys.Sep] + y;
    Keys.SplitAppend(key, y);
    Keys.SplitSingle(y);
    Keys.SplitAppend(ky, z);
    Keys.SplitSingle(z);
    var q := p + [y] + [z];
    assert q[..|p| + 1] == p + [y];
    WalkPrefix(t, p + [y], |p|);
    assert (p + [y])[..|p|] == p && (p + [y])[|p|..] == [y];
    var before := MergeEachVisits(m1, key, v, v.Keys, y, q);
    assert Get(before, ky) == Defined(Obj(e));
    if z in e && z !in w {
      MergeKeepsAbsentKeys(before, ky, e, w, z);
    }
    if z in w && (!IsObjectType(w[z]) || w[z].Arr?) {
      MergeWritesProps(before, ky, e, w, z);
    }
  }

  /**
    The union law of merging an object into an existing object, read through
    `get` on `key:x`: a property the merged object does not mention keeps its
    value, and a non-object (or array) property of the merged object is written.
   */
  lemma MergeUnion(m: MemState, key: string, existing: map<string, Value>, v: map<string, Value>, x: string)
    requires Get(m, key) == Defined(Obj(existing))
    requires forall y | y in v :: Keys.Sep !in y
    requires Keys.Sep !in x
    requires Merge(m, key, Obj(v)).1
    ensures x in existing && x !in v ==> Get(Merge(m, key, Obj(v)).0, key + [Keys.Sep] + x) == Defined(existing[x])
    ensures x in v && (!IsObjectType(v[x]) || v[x].Arr?) ==> Get(Merge(m, key, Obj(v)).0, key + [Keys.Sep] + x) == Defined(v[x])
  {
    Keys.SplitAppend(key, x);
    Keys.SplitSingle(x);
    if x in existing && x !in v {
      MergeKeepsAbsentKeys(m, key, existing, v, x);
    }
    if x in v && (!IsObjectType(v[x]) || v[x].Arr?) {
      MergeWritesProps(m, key, existing, v, x);
    }
  }

  /** Merging a non-object, or an array, is exactly `set`. */
  lemma MergeScalarIsSet(m: MemState, key: string, v: Value)
    requires !IsObjectType(v) || v.Arr?
    ensures Merge(m, key, v) == (Set(m, key, v), true)
    ensures Get(Merge(m, key, v).0, key) == Defined(v)
  {
    GetAfterSet(m, key, v);
  }

  /** Merging `null` onto an existing object raises a TypeError (`Object.keys(null)`), after recording the key's mtime. */
  lemma MergeNullOntoObjectFaults(m: MemState, key: string)
    requires ObjectSlot(Get(m, key))
    ensures !Merge(m, key, Null).1
    ensures Merge(m, key, Null).0 == MemState(m.store, m.mtimes + {key})
  {
    MergeWalkDescends(Obj(m.store), Keys.Split(key), Null);
  }

  // ---------------------------------------------------------------- reset and env

  /** After `reset()` every key reads `undefined` and no mtime remains. */
  lemma ResetEmpties(key: string)
    ensures Get(Reset(), key) == Undefined && Reset().mtimes == {}
  {
  }

  /** A store seeded with an object reads each of its separator-free top-level keys back. */
  lemma SeededGet(seed: map<string, Value>, k: string)
    requires Keys.Sep !in k
    ensures Get(MemState(seed, {}), k) == (if k in seed then Defined(seed[k]) else Undefined)
  {
    Keys.SplitSingle(k);
  }

  /** The Env store keeps exactly the prefixed names, without the prefix, and their values unchanged. */
  lemma EnvStoreContents(env: map<string, string>, prefix: string, k: string)
    ensures k in EnvStore(env, prefix) <==> prefix + k in env
    ensures k in EnvStore(env, prefix) ==> EnvStore(env, prefix)[k] == Str(env[prefix + k])
  {
    if prefix + k in env {
      assert (prefix + k)[|prefix|..] == k;
    }
    if k in EnvStore(env, prefix) {
      var name :| name in env && prefix <= name && k == name[|prefix|..];
      assert prefix + k == name;
    }
  }

  /** A name that starts with the prefix yields its name minus the prefix as a key, holding that variable's value. */
  lemma EnvStoreKeysFromPrefixedNames(env: map<string, string>, prefix: string, name: string)
    requires name in env && prefix <= name
    ensures name[|prefix|..] in EnvStore(env, prefix)
    ensures EnvStore(env, prefix)[name[|prefix|..]] == Str(env[name])
  {
    assert prefix + name[|prefix|..] == name;
  }

  /** With the empty prefix the Env store holds every variable. */
  lemma EnvStoreEmptyPrefix(env: map<string, string>, k: string)
    ensures k in EnvStore(env, "") <==> k in env
  {
    EnvStoreContents(env, "", k);
    assert "" + k == k;
  }
}
